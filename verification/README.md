# Verified model of the plugin toolchain

This project models the parts of the plugin toolchain whose behaviour is hardest to see from the code, and
proves what they keep: over every interleaving of goroutines, every sequence of operations on the store,
every JSON tree, every record list and every sequence of calls on a connection. Nothing here executes the
program; what is said is said of the model.

Check it with `dafny verify dfyconfig.toml` (Dafny 4.11).

## What is modelled

**The framed host-call multiplexer** (`FrameClient`, `Multiplexer`, `MultiplexerSafety`, `MultiplexerOutcomes`,
`MultiplexerProgress`, `MultiplexerEvents`).
Plugin goroutines call the host or emit events over one duplex pipe; one reader hands responses to one-slot
channels by frame id; the host serves each request on its own goroutine and answers in any order. The plugin's
half is a class with one method for each critical section, proved against a function on its state; those
functions are the steps of a system that also has the goroutines, both finite pipes, the reader and the host.
(The table below lists the one method with a loop; the others are single sections and have their function's name.)
A state is reachable when some schedule of steps leads to it. The results say what holds in every reachable
state: a call returns what the host answered to it, channels are used once, no wake-up is lost, a failure reaches
every caller, events arrive once and in order, and somebody can always move.

**Bounded fan-out** (`Fanout`). The semaphore and wait group as a step system; every schedule ends with the
results of the plain loop.

**The local plugin store** (`StoreState`, `StoreMigration`, `StoreConservation`, `StoreLoads`, `StoreOps`,
`StoreEffects`, `StoreProofs`, `StorePins`, `StoreAuth`, `StoreBackend`). Every operation is a function from the loaded store and what the outside answers (the
marketplace entry, a build and the version its binary reports, the plugin's answer) to the store it writes and
the error it returns. Loading migrates legacy keys in whatever order the map yields them. The invariants are
proved over every sequence of loads and operations; `StoreEffects` says what each operation leaves, record by record,
and when it refuses. `StoreBackend` has the same operations as methods of a
class that changes the loaded maps step by step, each proved to write the file and return the error its function
says, and the batch install. (The table lists its methods with loops.)

**Name guessing** (`EditDistance`, `Likeness`, `LikenessLaws`, `NameRank`). The table loop against the minimum over
edit scripts, the greedy token alignment and its score by edits and synonyms, and the ranking.

**The host index** (`IndexRecords`, `IndexScore`, `IndexMeaning`, `IndexMatch`, `IndexQueries`, `IndexListing`,
`IndexSearch`, `IndexRanking`). Normalizing and enriching stored documents, the mutually recursive scorers against a
table of grades, and search, list, get and batch-get against the plain list of stored records.

**JSON trees** (`JsonTree`, `JsonLookup`, `JsonRedaction`, `JsonHeap`, `JsonInput`, `JsonStore`, `JsonArgs`,
`JsonArgLaws`, `SchemaTree`, `OperationSpec`, `OperationSpecProofs`, `OperationMeaning`). Lookup by path against a
relation of what a path leads to, redaction and nested setting (each as a function with its laws, and in place on
linked objects), the `--arg` loop, schema and operation normalization, merging of declarations.

**The proxied connection** (`ConnStream`, `ConnProxy`). The plugin's connection, the host's registry and the
socket behind it as one byte stream, and as objects.

`Text`, `Seqs` and `Sorting` hold what the others share; `TextLaws` says what the text functions mean.

The functions that compute are also described from outside: by a relation between what goes in and what comes out
that does not use them, so that a table, a branch or a default in them cannot change unnoticed.

## What turned out to be conditional

- An instance key joins the plugin key and the instance name with `#`. From a sound store an operation that writes
  leaves a sound store exactly when the key it files a record under has no `#`, and a run stays sound exactly when
  all its writes do (`StoreProofs.ApplyKeepsIntegrity`, `StoreProofs.RunKeepsIntegrity`). Only an install and a
  disconnect can fail that; a disconnect for one plugin can misfile another's instance
  (`StoreProofs.HashInReferenceBreaksIntegrity`).
- What a load shows under a key can depend on the order in which the map yields its keys. It does not exactly when
  the record is stored there and cannot move, or the key is free and all legacy records that compete for it would
  fill it alike (`StoreLoads.ShowsExactlyWhenSettledOrAlike`); two legacy versions of one plugin compete
  (`StoreLoads.OrderCanShow`).
- A rollback keeps the version bookkeeping sound exactly when the rebuilt binary does not report the version
  that is being left (`StoreProofs.RollbackVersions`, failing at `StorePins.RollbackCanBreakVersions`); two rollbacks
  restore the pair exactly when both binaries report what was asked for, or nothing
  (`StorePins.RollbackTwiceRestores`, failing at `StorePins.RollbackTwiceCanDiffer`).
- A rollback after an update leaves the two versions swapped exactly when its build reports the old version or nothing
  (`StoreEffects.RollbackUndoesUpdate`).
- The batch install collects the names of pinned plugins untrimmed and looks them up trimmed. The batch spares a
  plugin exactly when its trimmed name is blank or among the collected ones
  (`StorePins.PinHoldsExactlyWhenNameFound`, failing at `StorePins.BlankNameIsReinstalled`).
- Get takes the first stored record with an identifier and batch-get the last. Over different records they
  agree for every identifier exactly when none is stored twice (`IndexSearch.FirstIsLastExactlyWhenUnique`,
  failing at `IndexSearch.RepeatedIdDisagrees`).
- Redaction and lookup commute on every tree exactly when no segment of the path names a secret
  (`JsonTree.CommutesExactlyWhenOpen`).
- Setting a nested value leaves the lookup on a diverging path alone exactly when what both paths share goes
  through objects, or the lookup missed before (`JsonInput.SetElsewhere`, failing at
  `JsonInput.SetCanHideElsewhere`).
- A base input of JSON `null` decodes to an absent map, and the first well-formed `--arg` writes into it: the
  loop panics exactly then (`JsonArgs.BuildInput`).
- Merging the same generated declaration twice is merging it once, except when the author's scopes or secret
  purposes are a list of blanks and the generated ones are not (`OperationSpecProofs.MergeTwice`, failing at
  `OperationSpecProofs.MergeTwiceCanDiffer`).
- While a goroutine is unfinished nobody can move exactly when the host has stopped, every unfinished goroutine faces
  the full pipe to it, the reader is not running and every reply has been dealt with
  (`MultiplexerProgress.CanMoveExactlyUnlessWedged`). Some schedule leads there
  (`MultiplexerProgress.WedgeIsReachable`), and then only a failing write is left.
- Over every sequence of calls the peer was sent exactly what the successful writes carried, if and only if the socket
  broke off no write after it had taken some bytes (`ConnStream.SentIsWhatWasReported`): such a write is reported
  without a count (`ConnStream.BrokenWriteHidesBytes`).

Where comments in the source say otherwise the model follows the code: the comment on `RollbackPlugin`
(management/local/local.go:549-550) promises that rolling back twice round-trips, which needs the condition above;
the comment on `likeness` (internal/nameguess/nameguess.go:108-114) gives a typo 12 points, the code gives 16, 14 or
12 by its distance.

## Model

| member | source | states |
|---|---|---|
| FrameClient.IdTextInjective | protocol/pluginmain.go:89-143 | frame ids made from different kinds or counter values are different texts |
| FrameClient.FrameHostClient.CloseTaken | protocol/pluginmain.go:70-73 | in any order each taken channel is closed exactly once, no other, and the reader ends |
| MultiplexerSafety.ReaderKeepsDiscipline | protocol/pluginmain.go:60-82 | the reader uses each channel at most once and keeps every blocked caller on some list, whatever frames arrive |
| MultiplexerSafety.CallerKeepsDiscipline | protocol/pluginmain.go:84-137 | so does every step of every caller |
| MultiplexerSafety.HostKeepsTraffic | pluginruntime/runtime.go:326-402 | the host keeps frames, requests and replies in correspondence, in whatever order it answers |
| MultiplexerSafety.CallerKeepsServedOnce | protocol/pluginmain.go:89-113 | a caller's frame is written once and read once |
| MultiplexerSafety.InvStep | protocol/pluginmain.go:60-151 | every step of anybody keeps the whole invariant |
| MultiplexerSafety.ReachableInv | pluginruntime/runtime.go:302-402 | the invariant holds in every state that some schedule reaches |
| MultiplexerSafety.SuccessIsOwnResult | protocol/pluginmain.go:84-137 | a call that returns success returns what the host produced for that call's own command and payload, in every interleaving (errors: see AnswerArrives) |
| MultiplexerOutcomes.AnswerArrives | protocol/pluginmain.go:84-137 | in every reachable state: a caller that got a frame returned exactly what the host answered to its own command and payload, the result or the error message, and there is one such answer and no other |
| MultiplexerOutcomes.ReplyConveys | pluginruntime/runtime.go:415-427 | a reply read by the caller gives the produced result, the handler's own error, or that there is no handler |
| MultiplexerOutcomes.OnlyGoodFramesReturn | protocol/pluginmain.go:123-136 | success is exactly a response frame of this protocol that says so; otherwise protocol, kind and carried error are reported in that order |
| MultiplexerOutcomes.RefusalWasMet | protocol/pluginmain.go:84-123 | over every run: a call refused without a frame is refused with an error that its own marshalling or writing, or the reader, met |
| MultiplexerSafety.ChannelsAreUsedOnce | protocol/pluginmain.go:60-82 | a channel gets at most one frame or one close, never both; the reader's send never blocks |
| MultiplexerSafety.BlockedCallerIsRemembered | protocol/pluginmain.go:94-123 | no wake-up is lost: a blocked caller waits on a living reader, or its channel is held by the reader, or is ready |
| MultiplexerSafety.FailureReachesEveryCaller | protocol/pluginmain.go:60-123 | after the reader failed nobody waits, nobody new registers, and a caller that finds its channel closed finds the error |
| MultiplexerProgress.ReachableOnItsWay | pluginruntime/runtime.go:326-388 | while the host is up the request of every waiting caller, or its response, is somewhere on the way |
| MultiplexerProgress.NeverWedged | protocol/pluginmain.go:60-137 | with finite pipes and an unfinished goroutine that is not stuck writing to a stopped host somebody can take an ordinary step |
| MultiplexerProgress.CanMoveExactlyUnlessWedged | protocol/pluginmain.go:60-137 | with a goroutine unfinished, nobody can move if and only if the host has stopped, every unfinished goroutine is stuck writing to it, the reader is not running and no reply is open |
| MultiplexerProgress.WedgeIsReachable | protocol/pluginmain.go:104-112 | two events and a pipe for one frame: a schedule after which only a failing write is left |
| MultiplexerProgress.EveryStepWorks | protocol/pluginmain.go:60-137 | every step but a new call or the plugin's own response lowers the work left |
| MultiplexerProgress.RunsAreShort | protocol/pluginmain.go:60-137 | a run without new calls is no longer than the work at its start |
| MultiplexerProgress.CallsComplete | pluginruntime/runtime.go:307-402 | every finite set of calls completes: a run is bounded, and at rest under a living host all have finished |
| MultiplexerEvents.StepConserves | protocol/pluginmain.go:139-151 | a step loses no event and makes up none: handed over plus left in the pipe is what was there plus what it writes |
| MultiplexerEvents.EventsArriveInOrder | pluginruntime/runtime.go:389-392 | over every run the events handed to the host's handler, with those in the pipe, are the written ones, as emitted and in the order of the writes |
| MultiplexerEvents.EmitEndsOnce | protocol/pluginmain.go:139-151 | an emitting goroutine ends once, by its write or a failure |
| MultiplexerEvents.AtRestEventsHaveArrived | pluginruntime/runtime.go:326-392 | where a run comes to rest under a living host every written event has been handed over |
| Fanout.InvStep | cli/parallel.go:40-53 | slots, join count and runs stay in step over every action of spawner and workers |
| Fanout.RunInOrder | cli/parallel.go:33-38 | the sequential branch fills the results with each job's own |
| Fanout.EveryScheduleIsThePlainLoop | cli/parallel.go:26-54 | never more than the limit at once; on return every job ran exactly once and the results are the sequential ones |
| Fanout.NeverStuck | cli/parallel.go:40-53 | until it returns somebody can step, and each step brings the end nearer |
| Fanout.RunConcurrentIsThePlainLoop | cli/parallel.go:26-54 | for every asked limit, defaulted and clamped: bounded runs, never more at once than asked, nor than the default of four to twelve, and at rest the sequential results |
| Fanout.LimitIsClamped | cli/parallel.go:12-45 | k workers are within the limit if and only if there are k jobs and k were asked for, or, by default, k is at most twelve and at most four or the number of processors |
| Fanout.LimitIsReached | cli/parallel.go:26-54 | some schedule has as many jobs at work at once as the limit allows |
| Fanout.EveryScheduleReturns | cli/parallel.go:26-54 | no schedule runs for ever or rests before the return |
| StoreState.JoinInjective | management/local/local.go:2992-2994 | a key without '#' and an instance name are determined by the joined key |
| StoreState.InstanceAt | management/local/local.go:2958-2965 | in a sound store the instance found under a reference belongs to that plugin and has that name |
| StoreMigration.MoveInstancesConserves | management/local/local.go:2918-2930 | re-keying loses and invents no instance: each is kept, with its name and auth, under its own key or its target key |
| StoreMigration.NoneStranded | management/local/local.go:2918-2930 | in a sound store every instance of a moved plugin moves with it |
| StoreMigration.MoveOneKeepsIntegrity | management/local/local.go:2900-2932 | one move keeps a sound store sound |
| StoreMigration.UnmovableStays | management/local/local.go:2900-2916 | a record that cannot move at the start is never touched, in any order |
| StoreMigration.LoadMigrates | management/local/local.go:2863-2932 | for every map order: counts conserved, bare records unaltered, no versioned marketplace key left whose bare key is free |
| StoreMigration.LoadIsIdempotent | management/local/local.go:2900-2932 | a second load, in any order, changes nothing |
| StoreMigration.LoadKeepsSound | management/local/local.go:2863-2932 | integrity and version bookkeeping survive every load |
| StoreConservation.LoadKeepsEachRecord | management/local/local.go:2900-2932 | for every map order no record is lost: it is there under its key as it was, or moved from "name@version" to the bare name with pin, enablement, labels, runtime, configuration and manifest kept and the version recorded |
| StoreConservation.NoLegacyKeyIsLeft | management/local/local.go:2900-2916 | after a load no marketplace record is under "name@version" while the bare name is free |
| StoreConservation.LoadCarriesInstances | management/local/local.go:2918-2930 | from a sound store every instance goes where its plugin goes, with name and auth |
| StoreLoads.AlongTo | management/local/local.go:2900-2932 | a free key gets the record of the first legacy key that comes up for it, and stays free when there is none |
| StoreLoads.ShowsExactlyWhenSettledOrAlike | management/local/local.go:2900-2932 | every map order gives one and the same record under a key if and only if it is stored there and cannot move, or the key is free and all that compete for it would fill it alike |
| StoreLoads.OrderCanShow | management/local/local.go:2900-2932 | with two legacy versions of one plugin no record is shown by every order |
| StoreEffects.InstallWrites | management/local/local.go:311-426 | what a written install leaves: under the filed key what was given, built or in the catalog, and below it what was there; pin kept, version noted over the one before; a default instance; every other record as it was |
| StoreEffects.InstallRefuses | management/local/local.go:311-377 | exactly when an install refuses, does nothing, or writes |
| StoreEffects.UpdateWrites | management/local/local.go:429-496 | what a written update leaves: from a rebuild that reports a version, that version over the old one if another was installed, the build's runtime and labels over the old; every other field, record and instance stays |
| StoreEffects.UpdateRefuses | management/local/local.go:429-496 | which error an update returns, and that it writes exactly without one and outside a dry run |
| StoreEffects.PinWrites | management/local/local.go:514-547 | a pin changes the held version and nothing else, and only if it changes; it refuses where there is no version to hold |
| StoreEffects.AbsentIsRefused | management/local/local.go:500-508 | pin and rollback refuse a blank name and a plugin found under neither key |
| StoreEffects.RollbackWrites | management/local/local.go:551-606 | a rollback leaves the version before, as the build reports it, after the one it leaves; held plugins refuse first, then those without a version before |
| StoreEffects.SyncWrites | management/local/local.go:614-696 | in any order exactly the wanted, built plugins get the labels of their artifact over their own |
| StoreEffects.EnablingWrites | management/local/local.go:746-771 | enabling writes one field of one record, of an installed plugin |
| StoreEffects.CachingWrites | management/local/local.go:1250-1266 | caching operations writes one field of one record and never fails |
| StoreEffects.RemoveWrites | management/local/local.go:773-802 | a removal takes one plugin and its instances, leaves every other record as it was, and returns these errors |
| StoreEffects.RollbackUndoesUpdate | management/local/local.go:429-606 | a rollback after an update swaps the two versions back if and only if its build reports the old one or nothing |
| StoreEffects.PinBlocksRollback | management/local/local.go:514-572 | after a written pin every rollback of that plugin refuses with the held version, and after an unpin none does |
| StoreEffects.ReinstallIsIdle | management/local/local.go:338-349 | what an install wrote an install without force leaves alone |
| StoreEffects.BatchItemInstalls | cli/lifecycle.go:41-83 | a named, installable item that is not held back is installed anew with its pin and configuration kept, and nothing else is touched |
| StoreProofs.InstallKeeps | management/local/local.go:311-426 | an install that writes keeps integrity if and only if the key it is stored under has no '#' (a marketplace install drops the version from that key) |
| StoreProofs.UpdateKeeps | management/local/local.go:429-496 | an update keeps integrity, whatever the reference (what it writes: see UpdateWrites) |
| StoreProofs.RollbackKeeps | management/local/local.go:551-606 | a rollback keeps integrity, whatever the reference |
| StoreProofs.SyncKeeps | management/local/local.go:614-696 | a sync, in any order, changes labels only |
| StoreProofs.RemoveKeeps | management/local/local.go:773-802 | a removal keeps integrity and leaves neither the plugin nor an instance of it, and every other instance |
| StoreProofs.AuthOperationKeeps | management/local/local.go:1022-1069 | auth operations file instances under their own keys, except exactly a disconnect on a reference with '#' in its key |
| StoreProofs.ApplyKeepsIntegrity | management/local/local.go:311-802 | any operation that writes keeps integrity if and only if the key it files a record under has no '#' |
| StoreProofs.RunKeepsIntegrity | management/local/local.go:311-802 | over every sequence of loads and operations the store is sound throughout if and only if every write files under a key without '#' |
| StoreProofs.HashInReferenceBreaksIntegrity | management/local/local.go:1747-1772 | a store and a reference with '#' on which a disconnect misfiles another plugin's instance |
| StoreProofs.ApplyKeepsVersions | management/local/local.go:311-606 | every operation keeps: a recorded previous version means a different installed version |
| StoreProofs.RollbackVersions | management/local/local.go:551-606 | a rollback keeps it if and only if the rebuilt binary does not report the version being left |
| StoreProofs.RunKeepsVersions | management/local/local.go:311-606 | version bookkeeping over every sequence of loads and operations |
| StorePins.ApplyHolds | management/local/local.go:311-802 | every operation leaves an installed version alone, except a forced install, an update or a removal of that plugin and a rollback of it while not pinned; only an unpin of it lifts its pin |
| StorePins.RunHolds | management/local/local.go:311-802 | while a plugin is pinned its installed version stays, over every sequence of loads and operations without these |
| StorePins.RollbackCanBreakVersions | management/local/local.go:551-606 | from 2 after 1, a rollback whose binary reports 2 leaves 2 after 2 |
| StorePins.RollbackTwiceRestores | management/local/local.go:551-606 | two rollbacks restore the version pair if and only if each binary reports what was asked for, or nothing |
| StorePins.RollbackTwiceCanDiffer | management/local/local.go:549-606 | from 2 after 1, two rollbacks, the first reporting 3, give 2 after 3 |
| StorePins.BatchSparesPinned | cli/lifecycle.go:41-83 | through the whole batch a record whose name was collected as pinned stays what every load shows, legacy or not |
| StorePins.PinHoldsExactlyWhenNameFound | cli/lifecycle.go:46-69 | the batch spares the record at a name if and only if the trimmed name is blank or among the collected names; so it does for a pinned plugin with a trimmed name |
| StorePins.BlankNameIsReinstalled | cli/lifecycle.go:46-69 | a sound store with a pinned plugin " a" that the batch can reinstall |
| StoreAuth.OrderedUnique | management/local/local.go:3330-3332 | a table with one state for each method has one order, so an unstable sort cannot show |
| StoreAuth.UpsertThenFind | management/local/local.go:3290-3312 | what was put is found, every other method is looked up as before |
| StoreAuth.RemoveThenFind | management/local/local.go:3304-3324 | what was removed is gone, every other method is looked up as before |
| StoreAuth.DisconnectUndoesConnect | management/local/local.go:3290-3324 | connecting a new method and disconnecting it gives the list back |
| StoreAuth.AuthSettlesOneMethod | management/local/local.go:1022-1202 | an auth operation settles its own method of the instance it names, a test with the plugin's answer on the state that was there; every plugin, every other instance and everything else in it stay |
| StoreAuth.AuthAnswers | management/local/local.go:1022-1202 | which error connect, test and disconnect return and when they write: a refused test is written, a refused connect is not |
| StoreAuth.SameMethodMeans | management/local/local.go:3282-3288 | method names are alike without surrounding blanks, and a blank one means "default" |
| StoreAuth.RunKeepsAuth | management/local/local.go:3290-3332 | over every run each instance has at most one state for each method, in method order |
| StoreBackend.RekeyInstances | management/local/local.go:2918-2930 | the loop that inserts and deletes while it ranges moves exactly the instances whose target is free |
| StoreBackend.MigrateVersionedKeys | management/local/local.go:2900-2932 | the nested loops over both maps are a migration in some order that covers every key |
| StoreBackend.UpsertAuthInto | management/local/local.go:3290-3302 | the loop replaces in place or appends and sorts |
| StoreBackend.RemoveAuthInPlace | management/local/local.go:3314-3324 | filtering into the slice being read loses nothing that is kept |
| StoreBackend.Backend.SyncLocalPlugins | management/local/local.go:614-696 | the loop over the map being assigned to is a sync in some order that covers every key |
| StoreBackend.Backend.RemovePlugin | management/local/local.go:773-802 | deleting while ranging leaves exactly the instances of other plugins |
| StoreBackend.Backend.AuthDisconnect | management/local/local.go:1747-1772 | the states of the method go, if it was connected |
| StoreBackend.CollectPinned | cli/lifecycle.go:46-53 | the names of all pinned plugins, lower-cased, in any order |
| StoreBackend.InstallAllPlugins | cli/lifecycle.go:41-83 | the loop is a batch over the pinned names of one listing, one load for each install |
| StoreBackend.BatchKeepsPinned | cli/lifecycle.go:46-69 | a pinned plugin with a trimmed name that every load shows before the batch is shown with its whole record by every load after it |
| EditDistance.NoCheaperScript | internal/nameguess/nameguess.go:183-209 | no edit script is cheaper than the table's value |
| EditDistance.BestScript | internal/nameguess/nameguess.go:183-209 | some edit script costs exactly the table's value |
| EditDistance.DistanceIsMinimumCost | internal/nameguess/nameguess.go:183-209 | the distance is the least cost over all scripts of insertions, deletions, substitutions and adjacent transpositions |
| EditDistance.Symmetric | internal/nameguess/nameguess.go:183-209 | the distance is symmetric |
| EditDistance.ZeroExactlyWhenEqual | internal/nameguess/nameguess.go:183-209 | it is zero exactly for equal strings |
| EditDistance.BetweenLengths | internal/nameguess/nameguess.go:183-209 | it lies between the length difference and the longer length |
| EditDistance.EditDistance | internal/nameguess/nameguess.go:183-209 | the table loop computes the distance |
| Likeness.PointsLevels | internal/nameguess/nameguess.go:126-140 | a token earns nothing or one of the four levels (which one: see LikenessLaws.PointsAre) |
| Likeness.AlignTokens | internal/nameguess/nameguess.go:118-146 | the loops over the used array compute the greedy alignment |
| Likeness.Likeness | internal/nameguess/nameguess.go:115-160 | the loops compute the score (what it is: see LikenessLaws) |
| Likeness.AlignInjective | internal/nameguess/nameguess.go:118-146 | no candidate token is taken twice |
| Likeness.SharedBounds | internal/nameguess/nameguess.go:118-146 | aligned tokens are at most as many as either side has, and earn at most the exact points each |
| Likeness.EqualTokensAlignExactly | internal/nameguess/nameguess.go:118-146 | equal token multisets align with full points, however they are ordered |
| Likeness.ScoreBound | internal/nameguess/nameguess.go:115-160 | the score's upper bound, reached in full exactly for equal token multisets |
| LikenessLaws.TokensOfJoined | internal/nameguess/nameguess.go:162-168 | the tokens are the runs between '_', '.' and '-' |
| LikenessLaws.SameClassMeansSynonyms | internal/nameguess/nameguess.go:41-48 | one synonym class if and only if both stand in one of the lists |
| LikenessLaws.PointsAre | internal/nameguess/nameguess.go:126-140 | equal tokens earn 20, synonyms 16, others 16, 14 or 12 for a least script of 1, 2 or 3 edits within the bound for the shorter one, else nothing |
| LikenessLaws.NearerEarnsMore | internal/nameguess/nameguess.go:137-139 | of two tokens that are no synonyms the one fewer edits away earns strictly more |
| LikenessLaws.AlignIsGreedy | internal/nameguess/nameguess.go:118-146 | no free token would earn a typed one more than the one it takes |
| LikenessLaws.SubsetScore | internal/nameguess/nameguess.go:147-160 | a candidate with all typed tokens and k more scores 20 for each less 4k, never below 0 |
| LikenessLaws.WholeNameScore | internal/nameguess/nameguess.go:147-153 | where no token aligns: 90 less the edits between the whole names, within the bound |
| LikenessLaws.OneSlipScores | internal/nameguess/nameguess.go:115-160 | two single-token names one edit apart score 16 |
| NameRank.OrderOfCandidatesIrrelevant | internal/nameguess/nameguess.go:73-106 | the suggestions do not depend on the order of the candidates, which come from a map |
| NameRank.SuggestionsAreBest | internal/nameguess/nameguess.go:73-106 | exactly the candidates that are not blank, not the typed name and reach the floor are ranked, each as often as given, by score and then name; the suggestions are the first of them, as many as asked for or qualify |
| NameRank.NearestIsBest | internal/nameguess/nameguess.go:56-62 | the suggestion is the qualifying candidate that no other one beats |
| NameRank.NoneExactlyWhenNoneQualifies | internal/nameguess/nameguess.go:50-62 | there is none if and only if no candidate scores 16 or more |
| NameRank.OneSlipIsUnderstood | internal/nameguess/nameguess.go:56-62 | for a single-token name with one slip the candidate one edit away is suggested unless another scores better, or the same with a smaller name |
| NameRank.Rank | internal/nameguess/nameguess.go:73-106 | the loop, sort and cut give the top of the ranking |
| NameRank.Nearest | internal/nameguess/nameguess.go:56-62 | the best confident suggestion, or none (which one: see NearestIsBest) |
| NameRank.CloseMatches | internal/nameguess/nameguess.go:69-71 | the best suggestions at any positive score |
| IndexRecords.EnrichOnlyAddsOrigin | management/local/index.go:739-776 | the second pass over a record only adds its origin: everything it looks for has been found or is not there |
| IndexMeaning.DocumentBecomesRecord | management/local/index.go:739-760 | a document is a record if and only if it is an object with an identifier under one of the keys; identifier, title, address, links and fields are the first that its own fields, or its nested record's, say |
| IndexMeaning.MergedHasFields | management/local/index.go:778-789 | a field is the document's own, else its nested record's |
| IndexListing.CandidateBecomes | management/local/index.go:739-776 | a document gives record r if and only if it says r and r is of the entity asked for |
| IndexListing.ListedNext | management/local/index.go:591-619 | a further snapshot adds its records behind the others |
| IndexListing.ListedDocument | management/local/index.go:591-619 | a further document adds the record it is, or nothing |
| IndexScore.CollectTerms | management/local/index.go:920-932 | the terms: distinct, of two characters or more, no stop words, in order |
| IndexScore.TermIsOneWord | management/local/index.go:920-932 | a term has no blank inside |
| IndexScore.TermsAreLight | management/local/index.go:902-918 | what makes the mutual recursion end: each of two or more terms has fewer words than the query |
| IndexScore.ScoreInRange | management/local/index.go:846-918 | for a query that is not blank the score is 0 or from 100 to 1000, through the mean over terms |
| IndexMeaning.DirectIsBestGrade | management/local/index.go:846-888 | the direct score is the best grade that any field grants by a table: equal, prefix or substring, for id, title, entity, links, fields and the whole text |
| IndexMeaning.TermsAreStrippedWords | management/local/index.go:920-932 | the terms are the words without the punctuation around them, of two characters or more, that are no stop words |
| IndexMeaning.UngrantedScore | management/local/index.go:889-918 | a query that no field grants anything scores the floor of the mean over its terms, if there are two and each scores and it is no address, else nothing |
| IndexMeaning.FullScoreExactlyForId | management/local/index.go:846-896 | a record scores 1000, the most there is, if and only if its identifier is the query |
| IndexMatch.AppendMatchedFields | management/local/index.go:996-1014 | the union, without blanks or repeats |
| IndexMatch.AddLinks | management/local/index.go:872-874 | whatever order the link map yields, the best link and the set of matching links |
| IndexMatch.ScoreRecord | management/local/index.go:846-896 | the loops compute the score (what it is: see IndexMeaning) and a list without repeats of exactly the fields reported, in every visiting order of the links |
| IndexMatch.ScoreTerms | management/local/index.go:902-918 | the mean over the terms, zero as soon as one misses |
| IndexMatch.ReportedScores | management/local/index.go:846-918 | a record with a reported field scores |
| IndexMatch.ScoredReports | management/local/index.go:846-918 | a record that scores on a query has a reported field |
| IndexQueries.EntityFilter | management/local/index.go:601-615 | asking for an entity is filtering the whole list |
| IndexQueries.GetIndexRecord | management/local/index.go:646-663 | the scan that compares ids before enriching finds the first listed record with the id |
| IndexQueries.BatchGetIndexRecords | management/local/index.go:665-696 | one pass over the records and one over the ids give the last record of each id, and the ids that have none |
| IndexSearch.SearchIndexRecords | management/local/index.go:558-589 | the loops give the first of the stable sort of the matching records, with scores and matched fields (what comes first: see IndexRanking) |
| IndexSearch.ListIndexRecords | management/local/index.go:591-619 | with a query a search; without one the list, cut where the scan stops early |
| IndexSearch.SearchIsBest | management/local/index.go:558-589 | the results are sorted, each a listed record with its own score; a match left out means a full result that it does not outrank; matches that rank alike come in listed order, the first ones |
| IndexRanking.SearchInOrder | management/local/index.go:558-589 | as many matching records as asked for, 20 by default, or as there are, by score, entity and identifier, and none left out scores better |
| IndexRanking.ExactIdComesFirst | management/local/index.go:558-589 | what comes before a record whose identifier is the query has that identifier too, and one is left out only if all that is returned has it |
| IndexRanking.MatchedFieldsHold | management/local/index.go:851-888 | the fields reported for a query that some field grants something are exactly those whose value has it in it |
| IndexListing.ListIsBeginning | management/local/index.go:591-619 | without a query: the first records, as many as asked for or there are, unscored, in stored order |
| IndexListing.BatchAppends | management/local/index.go:683-696 | what a batch finds and misses comes in the order asked |
| IndexSearch.GetIsFirstListed | management/local/index.go:646-663 | get is the first of the unlimited list with the id, or there is none |
| IndexSearch.BatchRoutes | management/local/index.go:683-696 | each non-blank id goes to exactly one side |
| IndexSearch.FirstIsLastExactlyWhenUnique | management/local/index.go:646-696 | over different records, first and last agree for every id if and only if no id is stored twice |
| IndexSearch.RepeatedIdDisagrees | management/local/index.go:646-696 | two records with one id, of which get takes the first and batch-get the last |
| IndexSearch.BatchIsGets | management/local/index.go:646-696 | with unique ids a batch is the gets one after the other |
| IndexSearch.BatchOfOne | management/local/index.go:646-696 | a batch of one id agrees with get exactly when its first record is its last |
| IndexSearch.ListedCanBeGot | management/local/index.go:591-663 | every listed record's id can be got under the same filter |
| JsonTree.RedactCommutes | cli/oppath.go:23-55 | looking up in the redacted tree is redacting what the lookup finds, hit or miss, through keys, indexes and projections |
| JsonTree.CommutesExactlyWhenOpen | cli/oppath.go:141-185 | that holds for all trees if and only if the path names no secret |
| JsonTree.RedactMasks | cli/oppath.go:170-185 | every secret-named key at any depth is masked |
| JsonTree.RedactIsIdempotent | cli/oppath.go:170-185 | redacting twice is redacting once |
| JsonTree.ShownAlikeExactlyWhenSame | cli/oppath.go:170-185 | two trees are shown alike if and only if they differ in secret values only |
| JsonRedaction.RedactMasksExactly | cli/oppath.go:141-185 | redaction gives a tree if and only if it has the mask under every key with a secret's name in it, in whatever case, and every other value as it was |
| JsonLookup.LookupFinds | cli/oppath.go:23-55 | a lookup finds a value if and only if the path leads to it by keys, numerals for indexes, and, for "*", the hits of the elements in their order |
| JsonLookup.ReadExactlyNumerals | cli/oppath.go:46-50 | a segment is an index if and only if it is a numeral for it, with leading zeros or a sign |
| JsonLookup.PathFinds | cli/oppath.go:19-21 | a dotted path finds what its segments lead to |
| JsonLookup.JoinOfSplit | cli/oppath.go:19-21 | splitting and joining are inverse |
| JsonHeap.Node.RedactKey | cli/oppath.go:172-184 | one round of the loop: a secret entry masked, another walked into, all others as they were |
| JsonHeap.Node.RedactSecrets | cli/oppath.go:170-185 | the in-place walk over linked maps and arrays, in any order, leaves what redaction makes of the tree |
| JsonInput.SetThenGet | cli/opinput.go:124-135 | at the path and below it the new value is found |
| JsonInput.SetThenGetAbove | cli/opinput.go:124-135 | above the path stands an object with the value at the rest of the path |
| JsonInput.SetElsewhere | cli/opinput.go:124-135 | on a diverging path the lookup is unchanged if and only if the shared part goes through objects or nothing was there |
| JsonInput.SetCanHideElsewhere | cli/opinput.go:124-135 | a set below an array makes an object of it, and what a projection found there is gone |
| JsonInput.SetAgain | cli/opinput.go:124-135 | a second set at a path overrides the first |
| JsonInput.SetIsIdleExactlyWhenThere | cli/opinput.go:124-135 | a set changes nothing if and only if the value is there already, below objects |
| JsonInput.SetsCommute | cli/opinput.go:124-135 | sets at diverging paths commute |
| JsonInput.SetThroughEmpty | cli/opinput.go:124-135 | making the empty object first, where a set has to, does not change what the set makes |
| JsonStore.WriteSets | cli/opinput.go:128-134 | one write into the object that a path leads to is a set at the path and the key, and shares nothing new |
| JsonStore.Store.StepTo | cli/opinput.go:125-133 | one round of the walk keeps what the whole set will make |
| JsonStore.Store.SetNestedValue | cli/opinput.go:124-135 | the loop over linked map objects leaves the root standing for what the set makes of it, and still a tree |
| JsonArgs.WalkSchema | cli/opinput.go:91-108 | the loop finds the field that nested properties declare for the path |
| JsonArgs.FoldArgs | cli/opinput.go:45-63 | all arguments set in order, or the first malformed one reported |
| JsonArgs.BuildInput | cli/opinput.go:22-63 | when the base is passed on, when it is refused, when the loop panics, and what is built otherwise |
| JsonArgLaws.FieldIsNested | cli/opinput.go:91-108 | a path's field is the last of the chain of properties that it names |
| JsonArgLaws.DeclaredTypeIsString | cli/opschema.go:324-340 | declared a string: by the type "string", or a list whose only text but "null" is that |
| JsonArgLaws.ArgAssigns | cli/opinput.go:45-63 | "key=text" sets the value the text means at the dotted path of the trimmed key, up to the first '=' |
| JsonArgLaws.ArgIsRefused | cli/opinput.go:46-53 | an argument is refused if and only if it has no '=', or only blanks before it |
| JsonArgLaws.MeaningArrives | cli/opinput.go:72-122 | what parses arrives as the parsed value and other text as text, unless the schema declares a string: then the text, or what a quoted one says |
| JsonArgs.ArgIsFound | cli/opinput.go:45-63 | an argument's value is found at its path unless a later path continues it or is continued by it |
| JsonArgs.DeclaredTextSurvives | cli/opinput.go:72-85 | a declared string that is not quoted arrives as typed |
| JsonArgs.ArgOrderIrrelevant | cli/opinput.go:45-63 | arguments with pairwise diverging paths build the same object in every order |
| SchemaTree.NormalizeGivesNormal | pluginbinding/plugin.go:769-792 | no `$schema` key at any depth, every `required` list sorted |
| SchemaTree.NormalizeSchemaIsIdempotent | pluginbinding/plugin.go:769-792 | normalizing twice is normalizing once |
| SchemaTree.RequiredSortIsUnique | pluginbinding/plugin.go:776-782 | a list of strings has one sorted arrangement, so the unstable sort cannot show |
| OperationMeaning.NormalizeKeepsAll | pluginbinding/plugin.go:769-792 | normalizing a schema keeps every key but `$schema` with what it says, every list in order (a `required` list rearranged) and every other value |
| OperationSpec.UniqueValues | pluginbinding/manifest.go:380-417 | the seen-set loop keeps each non-blank value at its first place |
| OperationSpec.EnsureAccess | pluginbinding/manifest.go:419-426 | appends only what is not there |
| OperationSpec.RemoveAccess | pluginbinding/manifest.go:428-436 | filtering into the slice being read keeps every other value |
| OperationSpec.NormalizeOperationSpec | pluginbinding/manifest.go:288-345 | the assignments in order give the normal form |
| OperationSpecProofs.AccessIsExact | pluginbinding/manifest.go:291-337 | the access list is not empty, repeats nothing, holds exactly what is named, implied by effects or by secret purposes, and "none" only alone |
| OperationSpecProofs.InputIsNormal | pluginbinding/manifest.go:347-378 | an object input is a normal schema with the endpoint reference; any other passes unchanged |
| OperationMeaning.InputKeepsAll | pluginbinding/manifest.go:347-378 | an object input, or none, keeps all it says and gets the type and the endpoint reference, unless it has one; any other passes unchanged |
| OperationMeaning.DeclaredPropertySurvives | pluginbinding/manifest.go:347-378 | every declared property is there with what it says |
| OperationSpecProofs.NormalizeInputIsIdempotent | pluginbinding/manifest.go:347-378 | the input schema is settled after one pass |
| OperationSpecProofs.NormalizeIsIdempotent | pluginbinding/manifest.go:288-345 | normalizing a normalized declaration changes nothing |
| OperationMeaning.UniqueTidies | pluginbinding/manifest.go:380-417 | the values that are not blank, each once, in the order in which they first come |
| OperationMeaning.DefaultsApply | pluginbinding/manifest.go:288-345 | which effects, risk, idempotency and renderings hold by default, by whether the operation is read-only or compact; what is declared stays |
| OperationMeaning.AuthorWins | pluginbinding/plugin.go:794-832 | in a merge the author wins field by field and the defaults apply to what neither says |
| OperationSpecProofs.MergeTwice | pluginbinding/plugin.go:794-832 | merging again changes nothing if and only if no scopes or purposes list was blanks only where the generated one is not |
| OperationSpecProofs.MergeTwiceCanDiffer | pluginbinding/plugin.go:794-832 | one blank scope by the author, one scope generated: the second merge adds it |
| ConnStream.StepKeeps | pluginbinding/conn.go:88-149 | every call keeps the plugin's bytes equal to the bytes read from the socket; the oversize and short-write branches are not taken |
| ConnStream.ReadsAreThePeersStream | pluginbinding/conn.go:88-149 | over every sequence of calls with any buffer sizes the bytes read are a beginning of the peer's stream, all of it at end of file; one close request at most |
| ConnStream.ReadAnswers | pluginbinding/conn.go:88-116 | a read of an open, unexpired, registered connection returns exactly the socket's bytes; without any, end of file exactly at the end and a failure exactly on an error; the other calls fail without moving a byte |
| ConnStream.ReadMayBring | management/local/conn.go:170-176 | a read may bring n bytes if and only if they fit the buffer, four mebibytes and the stream |
| ConnStream.ReadingOnGetsAll | pluginbinding/conn.go:88-116 | after as many giving reads as the stream has bytes all of it has been returned, and every further one returns the end of file |
| ConnStream.ClosedStaysQuiet | pluginbinding/conn.go:139-149 | after a close no bytes come or go |
| ConnStream.SentIsWhatWasReported | pluginbinding/conn.go:118-137 | over every sequence of calls the bytes sent are those of the successful writes, in order, if and only if no write was broken off after some bytes; never fewer |
| ConnStream.WriteAnswers | pluginbinding/conn.go:118-137 | a write is done exactly when it is not barred and the socket took it without an error |
| ConnStream.BrokenWriteHidesBytes | management/local/conn.go:199-214 | one byte of two sent, and the write reported as failed without a count |
| ConnProxy.ConnIdInjective | management/local/conn.go:37-44 | different counts give different identifiers |
| ConnProxy.ConnRegistry.Add | management/local/conn.go:37-44 | the identifier was never issued before |
| ConnProxy.ConnRegistry.CloseAll | management/local/conn.go:63-74 | every registered socket is closed and forgotten |
| ConnProxy.ConnRegistry.ConnRead | management/local/conn.go:165-197 | the next bytes of the named socket, at most the clamped size; an error is kept back while there are bytes |
| ConnProxy.ConnRegistry.ConnWrite | management/local/conn.go:199-214 | the socket's bytes go behind those sent; a count only without error |
| ConnProxy.ConnRegistry.ConnClose | management/local/conn.go:216-226 | the named socket is closed and forgotten, no other |
| ConnProxy.HostConn.Read | pluginbinding/conn.go:88-116 | is a read step of the byte stream; the buffer holds the returned bytes and is untouched behind them |
| ConnProxy.HostConn.Write | pluginbinding/conn.go:118-137 | is a write step of the byte stream |
| ConnProxy.HostConn.Close | pluginbinding/conn.go:139-149 | is a close step; other connections of the host stay registered |

## Left out

- Text: strings are sequences of ASCII characters; Unicode case folding, Unicode blanks and invalid UTF-8 are not modelled.
- JSON bytes: documents are trees, numbers keep their text; parsing, printing and the rounding of numbers are parameters or absent. A record's text is a function of its fields, and decoding it gives the fields back.
- Frame ids carry the counter (their texts are shown to differ, `FrameClient.IdTextInjective`); the wrap-around of the 64-bit counter is not modelled.
- Pipes carry whole frames; a frame that is written in part is not modelled. A failed write leaves nothing in the pipe.
- The plugin's legacy unframed path, the request the host sends first, cancellation and the killing of the plugin process.
- The host's reader error while a plugin is still writing: the model's `Stop` step covers every reason for which the host stops reading.
- Goroutine scheduling inside a critical section: each section, pipe operation and channel operation is one step.
- StoreBackend.InstallAllPlugins: does not return the sorted result list with messages, because it holds nothing the next operation reads.
- StorePins.BatchSparesPinned: takes the catalog's item names, or the key of the record, to have no '@' in them, as parsed references have none.
- An update is not blocked by a pin; the model follows the code and has no lemma about it.
- Timestamps, endpoints, secrets and processes in the state file, and the listing operations.
- Labels: a later label overrides an earlier one under the same key; the trimming of label keys and the dropping of blank ones are not modelled.
- Building, installing and removing artifacts: a build gives a runtime, labels and a version or fails; deleting an old artifact succeeds or fails.
- File errors and concurrent writers of the state file: one operation at a time, and writes succeed.
- SyncLocalPlugins: which builds succeed, and their labels, are arguments; the report of skipped plugins is not modelled.
- JsonStore.Store.SetNestedValue: map objects live in an explicit store with numbers for references; that a decoded base or value is a tree which shares nothing is assumed, because decoding is left out.
- SchemaTree.NormalizeSchema: on values, not in place; where a `required` list holds values that are not strings the order of ties is that of a stable sort.
- OperationSpec: the names of effects, access, risk and idempotency levels come from a module that is not part of this model; they are taken to be distinct and not blank. The render block is a value; that its formats also change for a caller who shares it is not captured.
- Descriptions, output schemas and names in declarations, and the registration of new operations.
- IndexRecords: lookup queries, whose matching lives in a module that is not part of this model.
- Index files, metadata and building.
- Deadlines on a connection are an "expired" flag; dialing, TLS and address resolution are left out, and what a socket does on each call is an argument within what its contract allows.
- Fanout: the default limit is a function of the number of processors, which is an argument; panics in jobs are not modelled.
- Commands, flags, printing, completion and skill templates, which have no deep property.
