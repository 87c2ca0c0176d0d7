# Goptivum server: a model and its proofs

Goptivum keeps school timetables. Its server stores each plan as a timeline of versions whose documents lie in an
object store, sends plans to solver nodes, checks plans, guards sign-in, and reads and writes `.gpf` project files.
This project models the parts of it where several functions, or several requests at once, have to agree, and proves
what they keep.

Each piece of state that the program changes in place is a class here, with methods that follow the program's own
statements and loops. A method is proved equal to a function from old state to new state; what the program promises is
then proved about those functions, for every input, and about every run of a step system in which they interleave.

## The plan index and its object store

`PlanTables` holds the tables as maps and `PlanOps` every transaction as a function on them. `PlanRepository` is the
repository itself: sweeps, trims, purges, uploads, forks and single-row edits, statement by statement, each proved to be
its function. `PlanRows` says of each transaction, column by column and date by date, which rows it leaves and what it
writes into them. `ChangeListing` is the query behind the change feed, row by row. `Uploads` is whole uploads and
`Sweeps` whole sweeps, call by call, with others going on between any two steps.

* `ObjectStore` interleaves uploads (revive, write, then commit, replay or discard), forks, exports, caps, purges and
  sweeps that hold a key's garbage row from its delete to its commit. In every reachable state each named object is
  stored, and each stored object is named, listed, or owned by an upload still under way. The one assumption is that
  an upload commits its row less than an hour after it revived its key. `TheHourIsExact` is a run that shows why.
* `Garbage`, `PlanLinks`, `Stamps`, `Timeline` and `OpenSolves` say what every single transaction keeps: it lists each
  key it stops naming, keeps the foreign keys, stamps what it changed, extends timelines only at their end, and spares
  what an open solve reads. The last two are then carried over whole runs.
* `Retention` and `Caps` say exactly which versions and results the caps keep, that at most the cap remains, and that
  applying a cap twice changes nothing more. `Undo` says that each move to Trash is undone by the restore beside it,
  that an edit asked for twice is made once, and that an update reads back as it was asked for.
* `Feed` and `Mirror` are the change feed: walking it reports each stamped part once and ends at the clock, and a client
  that mirrors the index through it never misses a change, and left alone ends at the clock. A stamping transaction is
  two steps there, taking the clock's row and committing, and the database may be replaced by another under a new epoch
  at any time.

## Solves

`Solves` gives each solve and each revoke, plan deletion and shutdown its own program counter. A solve registers before
it checks; a stopper writes its flag before it scans. Once a stopper returned with its waits done, none of its solves is
at its node or will get there until the flag is taken back. `OneScanIsNotEnough` shows why a deletion scans twice.
`SolveRunner` proves the registry's critical sections to be steps of that system. `SolveJobs` and `SolveStream` are the
job rows and the fold over a solve's stream, `Dispatches` interleaves solves from first frame to closed row, and
`Admission` is admission with its worker arithmetic. `AdmissionRuns` interleaves admissions with jobs that end, purges
and the registry: a job opens only within every bound there is. `NodeRegistry` keeps the limits admission relies on.

## Checks, sign-in, formats

`Checks` interleaves requests, flights, the cache and the goroutines behind the flights; `CheckService` proves the
service's own methods to be its steps, `Superseding` says when a check is told that it was replaced, and `CheckCache` is
the bounded cache as a list and a map, equal to the plain history of its uses. `Lockout` counts failed sign-ins.
`Utf8`, `GpfText`, `GpfHeader`, `GpfHeaderRoundTrip`, `GpfContainer` and `GpfFile` are the `.gpf` container, printer and
parser; `GpfCodecs` has functions that meet what they ask of sealing. `Ignored` is the key of an ignored finding,
`Lookalikes` says which keys are taken for another finding's, and `Folders` is the folder check of a library.

## Where the code and what is said of it differ

* `document/gpf/header.go:137-156` accepts field names that `parseHeader` skips as comments or trims. A block that was
  written reads back as itself exactly when no name starts with `#` or has outer Unicode space
  (`GpfHeaderRoundTrip.HeaderRoundTrip`, `CommentsAreLost`).
* `solveclient/solve.go:253-255` says a timetable's analysis rides on its own frame, and the code also keeps one that
  comes alone. The score, verdict or validation reported beside the kept timetable is that timetable's own exactly when
  its frame brought one and no later frame brings one alone (`SolveStream.AnalysisRidesAlong`, `ScoreCanBeAnothers`).
* `backend/core/checks/checks.go:30` says a check is superseded by one of a newer version. A check that joins a running
  check of the same object keeps that check's version number, and can be replaced by a version older than its own. For
  every set of subjects asked about, this can happen exactly when one object stands in it under two version numbers, and
  another object of the plan under a number from the lower up to below the higher (`Superseding.WronglyReplacedExactly`,
  `TenIsReplacedBySix`). "Newer" reads as "the same or newer".
* `document/gpf/file.go:36-39` takes any work factor for a password, and `document/gpf/crypto.go:14-22` caps the one a
  reader pays for at 20. A file written above the cap is refused to the holder of its password, and not as a wrong one
  (`GpfFile.CostlyPasswordIsRefused`); `GpfFile.ReadsBackExactly` has the exact condition.
* `backend/arrango/runner.go:295` says that closing waits for the rows to be written. A close waits exactly when it
  found the server open (`Solves.CloseWaitsExactly`), so a second one can return before (`SecondCloseDoesNotWait`).
* `backend/arrango/admission.go:44-47` names three refusals. The code answers busy, then silent, then a budget too long
  (with the longest one allowed), then an outdated node, then none (`Admission.Admit`).
* A ceiling of no workers reads as no ceiling (`solveclient/solve.go:55-66`). Limits never reach 0
  (`NodeRegistry.AlwaysSound`); `Admission.ZeroIsNoCeiling` says exactly what would happen if one did.
* The key of an ignored finding (`document/ignored.go:36-64`) separates its parts with characters it does not escape.
  Two plain findings, whose entity kinds hold neither `,` nor `|`, have one key exactly when they are the same finding;
  the kinds the server writes are plain (`Ignored.ServerFindingsArePlain`). A finding written elsewhere has the key of a
  plain finding that is not the same one exactly when it is not plain and what follows the last bar of its entities
  reads as a list of entities in order (`Lookalikes.LookalikesExactly`, `KindsDecide`; `CommasConfuse` and `BarsConfuse`
  are two families of them).

## Model

| member | source | states |
|---|---|---|
| `Garbage.RemoveVersionsAccounts` | backend/core/plans/backups.go:33-50 | Removing any versions names nothing new, and every key that stops being named, exported files included, is on the list of waiting keys. |
| `Garbage.RemoveResultsAccounts` | backend/core/plans/results.go:267-281 | The same for removing any results. |
| `Garbage.CascadeIsListed` | backend/core/plans/trash.go:75-83 | Every row a purge removes by cascade, through jobs and sources too, is one whose key it selected by plan. |
| `Garbage.RemovePlansAccounts` | backend/core/plans/trash.go:61-111 | Removing plans with everything they cascade lists each key it un-names. |
| `Garbage.EveryOpAccounts` | backend/core/plans/exports.go:119-130 | Every transaction of the index names nothing but its own upload's key anew, lists each key it stops naming, and dates a listed key only to now. |
| `Garbage.EveryKeyIsListed` | backend/core/plans/exports.go:119-130 | Key by key, on the rows: one that a version, result or exported file had and none has after a transaction is listed, every listed key stays listed, dates move only to now, and a key gets its first row only as the upload's own. |
| `PlanLinks.EveryOpLinks` | backend/core/plans/exports.go:56-109 | Every transaction keeps the foreign keys: each version, result, job and exported file has the plan, job or source it refers to. |
| `ObjectStore.StepKeeps` | backend/core/plans/garbage.go:16-118 | One step of any upload, transaction, sweep or of time keeps the invariant behind the next two rows. |
| `ObjectStore.NothingDangles` | backend/core/plans/garbage.go:41-118 | In every state of every interleaving of uploads, forks, exports, caps, purges and sweeps, each key a version, result or exported file names is in the object store, if each upload commits within the hour of its revive. |
| `ObjectStore.NothingLeaks` | backend/core/plans/garbage.go:29-39 | In every such state each stored object is named, waiting for the sweep, or written by an upload whose commit or discard is still to come. |
| `ObjectStore.TheHourIsExact` | backend/core/plans/garbage.go:13-16 | A run in which a written object is gone exactly one hour after its key was revived, so the bound cannot be longer. |
| `Uploads.UploadKeeps` | backend/core/documents/store.go:56-73 | A whole upload keeps the invariant of the object store, whatever steps others take between any two of its own. |
| `Uploads.Put` | backend/core/documents/store.go:56-73 | Revives the key, then stores the object, with any steps of others between and since: the upload is under way, and in time. |
| `Uploads.NewPlan` | backend/api/v1/handlers.go:332-353 | A new plan is one upload of the system, others going on in every gap of it, and keeps its invariant: the object is stored, and named by the plan or, when creating it fails, listed from now. |
| `Uploads.Add` | backend/core/results/results.go:51-74 | Adding a result is one upload of the system in the same way: on success the key is named and stored, on refusal it is listed from now. |
| `Uploads.Build` | backend/core/exports/exports.go:186-202 | Keeping a built file is one upload of the system in the same way, with the same outcome. |
| `Uploads.UploadVersion` | backend/api/v1/handlers.go:574-587 | However an upload of a version ends, with others going on in every gap, before and after its reads too, and with a read or the insert that may break, the call is one upload of the system that keeps its invariant: the key is stored, and named by a row or listed from now. |
| `Sweeps.SweepKey` | backend/core/plans/garbage.go:84-118 | One key of a sweep, as the method settles it, is the taking, counting, deleting and finishing or rolling back steps of the system, others going on between any two, and keeps its invariant. |
| `Sweeps.SweepAll` | backend/core/plans/garbage.go:41-82 | A whole sweep is such steps, key after key, and keeps the invariant: what it deletes no row names. |
| `Timeline.EveryOpFollows` | backend/core/plans/versions.go:230-280 | Every transaction leaves each old version as it was uploaded, adds at most the next number after the newest, and leaves every plan something to open. |
| `Timeline.NewestNeverGoesBack` | backend/core/plans/versions.go:230-280 | In every run the newest version of a plan never decreases. |
| `Timeline.NumberNeverReused` | backend/core/plans/versions.go:147-159 | A version number that was used and removed is never used again. |
| `Timeline.UploadNeverChanges` | backend/core/plans/checkpoints.go:37-102 | What a kept version was uploaded as never changes; only its checkpoint does. |
| `Timeline.ParentIsSpent` | backend/core/plans/versions.go:100-182 | Once an upload naming a parent was accepted, none that names it is accepted again, not even a retry after the cap removed what it stored. |
| `Timeline.AcceptedParentWasNewest` | backend/core/plans/versions.go:240-263 | A version that appears on an existing plan names the version that was newest as its parent. |
| `Retention.TrimKeepsExactly` | backend/core/plans/backups.go:12-56 | A version survives a trim exactly when it is another plan's, the newest or above, a checkpoint, read by an open solve, or among the newest `keep` plain ones; survivors are unchanged. |
| `Retention.AtMostKeepRemain` | backend/core/plans/versions.go:230-232 | After a trim at most `keep` plain versions below the newest remain, apart from those a solve reads. |
| `Retention.TrimIsIdempotent` | backend/core/plans/backups.go:12-56 | A second trim removes nothing. |
| `Retention.TighterCapTrimsMore` | backend/core/plans/backups.go:12-32 | A tighter cap removes every version a looser one does. |
| `Retention.CapsCompose` | backend/core/plans/plans.go:107-113 | Lowering a cap in steps ends with the versions that lowering it at once leaves. |
| `Retention.RaisedCapTrimsNothing` | backend/core/plans/plans.go:107-113 | After a trim a raised cap removes nothing more. |
| `Retention.ResultTrimKeepsExactly` | backend/core/plans/results.go:219-258 | A result survives its cap exactly when it is pinned, in Trash, another plan's, read by an open solve, or among the newest `keep` counted ones. |
| `Retention.AtMostKeepResultsRemain` | backend/core/plans/results.go:154-156 | At most `keep` counted results remain, apart from those a solve reads. |
| `Retention.ResultTrimIsIdempotent` | backend/core/plans/results.go:219-258 | A second application of the results cap removes nothing. |
| `Retention.AcceptedResultStays` | backend/core/plans/results.go:203-217 | A result is stored and kept, or the transaction changed nothing. |
| `Retention.NewestResultIsAccepted` | backend/core/plans/results.go:200-209 | With a cap of at least one, a result no older than every counted one is always accepted. |
| `Caps.TrimmedIsWithin` | backend/core/plans/backups.go:82-118 | After the cap was applied to a plan it has nothing more to remove there. |
| `Caps.EveryPlanIsWithin` | backend/core/plans/backups.go:58-80 | After the caps were applied to every plan, each plan whose transaction went through is within its cap, whatever order they came in. |
| `Caps.WithinInWords` | backend/core/plans/backups.go:12-32 | Within its cap, each plain version below the newest that no open solve reads has fewer plain ones above it than the plan's own cap, or the server's when it has none. |
| `OpenSolves.EveryOpSparesOpenSolves` | backend/core/plans/backups.go:148-152 | Every transaction leaves each version and result an open solve reads, unless it removes the whole plan. |
| `OpenSolves.ReadVersionStays` | backend/core/plans/backups.go:16-19 | In every run a version that an open solve reads, once there, stays for as long as the solve is open; a job can be opened on a version already trimmed. |
| `OpenSolves.ReadResultStays` | backend/core/plans/results.go:260-263 | In every run the result an open solve reads is there for as long as the solve is open and the result's plan exists. |
| `Stamps.EveryOpStamps` | backend/core/plans/changes.go:215-270 | Every transaction stamps above the clock it read each part a reader would see changed, or the removal of its plan; stamps stay distinct, at most the clock, and hold the clock's own value. |
| `Stamps.ChangedRowsAreStamped` | backend/core/plans/changes.go:215-270 | Row by row: a transaction that adds, changes or removes a plan's row, or a version or result of it, stamps that part above the clock it read, or the end of the plan. |
| `Feed.PageIsPrefix` | backend/core/plans/changes.go:104-142 | A page reports exactly the parts stamped after the cursor asked from and up to the cursor it answers with, and says truly whether any are left. |
| `Feed.LastPageEndsAtClock` | backend/core/plans/changes.go:127-131 | A page with nothing after it ends at the clock. |
| `Feed.NothingAfterTheClock` | backend/core/plans/changes.go:99-102 | At the clock there is nothing to report, so stopping there skips nothing. |
| `Feed.CursorIsIssued` | backend/core/plans/changes.go:113-131 | A page's cursor is neither before the one asked from nor past the clock. |
| `Feed.WalkReportsAll` | backend/core/plans/changes.go:85-149 | Walking from any issued cursor while there is more ends, reports each part stamped after it on exactly one page and nothing else, and ends at the clock. |
| `ChangeListing.Query` | backend/core/plans/changes.go:104-107 | The rows read are the first `n` stamps after the cursor in increasing order. |
| `ChangeListing.ReadRows` | backend/core/plans/changes.go:113-139 | Reading the rows lists each plan once, where it is now, with its parts among the rows read, and stops after `limit`. |
| `ChangeListing.SortParts` | backend/core/plans/changes.go:143-147 | The same parts in the fixed order. |
| `ChangeListing.Changes` | backend/core/plans/changes.go:85-149 | Answers a reset exactly for no cursor or one never handed out, and otherwise the page with each changed plan once and exactly its parts, its cursor and whether more wait. |
| `ChangeListing.PageSays` | backend/core/plans/changes.go:104-142 | A page of at most the asked number of stamps, 500 when none is asked, ends between its start and the clock, is full when more wait, and reports exactly the parts stamped in between. |
| `ChangeListing.ListingSays` | backend/core/plans/changes.go:127-149 | A listing has each plan once, live, in Trash or gone exactly as its row is, and its parts in the order project, versions, results. |
| `Mirror.StepKeeps` | backend/core/plans/changes.go:215-230 | One step of any writer, of the database being replaced or of the client keeps the invariant behind the next rows. |
| `Mirror.WriteKeepsMirrored` | backend/core/plans/changes.go:215-250 | No transaction can make a part both stale in a mirror and unannounced after its cursor. |
| `Mirror.NoChangeIsSkipped` | backend/core/plans/changes.go:88-149 | In every run each part is mirrored exactly, or it or its plan's removal is stamped above the client's cursor. |
| `Mirror.CaughtUpIsExact` | backend/core/plans/changes.go:99-102 | A client whose cursor is the clock mirrors the whole index exactly. |
| `Mirror.CursorStaysGood` | backend/core/plans/changes.go:96-98 | A cursor of the current database is never refused later. |
| `Mirror.CatchesUp` | backend/core/plans/changes.go:85-149 | From any state of any run, even in the middle of a poll, a client that goes on by itself ends at the clock, however few rows it asks for at a time. |
| `Mirror.WritersStep` | backend/core/plans/changes.go:215-230 | Every transaction that may run is a step of the system, or two when it stamps. |
| `Mirror.StampsAppearInOrder` | backend/core/plans/changes.go:215-218 | While a database lasts its clock never goes back, and each stamp that appears is above every clock value seen before. |
| `PlanRepository.Repository.Revive` | backend/core/plans/garbage.go:18-27 | Moves the date of a listed key to now and lists nothing new. |
| `PlanRepository.Repository.Discard` | backend/core/plans/garbage.go:29-39 | Lists a key from now, whether or not it was listed. |
| `PlanRepository.Repository.SweepOne` | backend/core/plans/garbage.go:84-118 | An object goes exactly when its key waited its time, no version, result or exported file has it and the store did not fail; a named key only leaves the list. |
| `PlanRepository.Repository.Sweep` | backend/core/plans/garbage.go:41-82 | Deletes exactly the objects that waited at least an hour and whose key no row has, whatever order the keys come in, and counts them; what waited less keeps its list row and its object, and failed keys stay listed. |
| `PlanRepository.SweptByDate` | backend/core/plans/garbage.go:41-118 | On rows and dates: what left the store waited at least an hour and no version, result or exported file has its key; what waited less keeps its list row and object; what waited longer is off the list and, unless a row has its key, out of the store. |
| `PlanRepository.Repository.Advance` | backend/core/plans/changes.go:252-270 | Moves the clock on by `n` and answers the first value passed. |
| `PlanRepository.Repository.StampParts` | backend/core/plans/changes.go:215-230 | Gives the parts consecutive values after the clock, in order. |
| `PlanRepository.Repository.EntombPlans` | backend/core/plans/changes.go:232-250 | Leaves each removed plan its project row alone, at consecutive values after the clock. |
| `PlanRepository.Repository.Trim` | backend/core/plans/backups.go:12-56 | Cutting at the row the offset finds removes exactly the versions the cap ranks out, with their files, lists their keys, and counts them. |
| `PlanRepository.CutIsTrimmed` | backend/core/plans/backups.go:21-36 | Removing at or below the offset row is removing what has at least `keep` newer plain versions. |
| `PlanRepository.NoCutTrimsNothing` | backend/core/plans/backups.go:24-28 | Without an offset row nothing is beyond the cap. |
| `PlanRepository.Repository.TrimPlan` | backend/core/plans/backups.go:82-118 | Applies one plan's own cap or the server's, stamps its versions only if some went, and counts them. |
| `PlanRepository.Repository.TrimBackups` | backend/core/plans/backups.go:58-80 | Applies the cap to every plan, each in its own transaction, and answers how many versions went in all. |
| `PlanRepository.Repository.Replay` | backend/core/plans/versions.go:185-203 | Answers the version an earlier send of the upload stored, refuses a key reused for another document or parent, and otherwise finds nothing. |
| `PlanRepository.Repository.InsertVersion` | backend/core/plans/versions.go:230-280 | Inserts exactly when the parent is the newest version and the upload key is new, with the cap applied in the same transaction; otherwise changes nothing. |
| `PlanRepository.InsertGuard` | backend/core/plans/versions.go:240-246 | The two conditions of the insert and the unique upload key hold exactly when the parent is the newest version and the key is new. |
| `PlanRepository.NewestStays` | backend/core/plans/backups.go:12-16 | The version just stored is never removed by its own cap. |
| `PlanRepository.Repository.InsertOrExplain` | backend/core/plans/versions.go:148-182 | The insert against whatever others left: stored under the next number exactly when it is accepted, and otherwise nothing is written and the answer is the stored version, a reused key, the current version, or that it broke. |
| `PlanRepository.Repository.Explain` | backend/core/plans/versions.go:153-182 | Changes nothing, and answers a refused or broken insert with the earlier send of it, a reused key, the current version of a live plan, or what broke. |
| `PlanRepository.Repository.AddVersion` | backend/core/plans/versions.go:100-182 | Refuses malformed uploads and plans not live; answers a known upload key before looking at the parent; otherwise inserts against whatever others left, or answers the earlier send, a conflict with the current version, or that the insert or a read it needed broke. What it answers as stored is stored. |
| `PlanRepository.UploadInWords` | backend/core/plans/versions.go:69-145 | An upload without key or parent, or whose upload key is not 16 to 64 letters, digits, `_` or `-`, is refused for the first of these; one for a plan not there or in Trash is not found; one whose upload key the plan has seen stores nothing and answers the version it stored, or that the key was reused; any other gets as far as the insert. |
| `PlanRepository.BrokenReadInWords` | backend/core/plans/versions.go:126-182 | When one read breaks: which uploads need it and are told so with nothing stored, and which go on without it. |
| `PlanRepository.InsertedInWords` | backend/core/plans/versions.go:147-182 | At the insert, on what others left: stored as the next number exactly when the parent is the newest version and the upload key is unseen; else nothing is written, and a live plan with another newest version answers a conflict that names it. |
| `PlanRepository.RowInWords` | backend/core/plans/versions.go:120-146 | The row is the upload's own key, parent and upload key, plain, made now, and each date it leaves open is its parent's. |
| `PlanRepository.DatesFollowTheParent` | backend/core/plans/versions.go:205-228 | A version has its parent's dates unless the upload sets or clears them, each on its own. |
| `PlanRepository.Repository.RemoveResult` | backend/core/plans/results.go:265-281 | Removes one result with its files and lists their keys. |
| `PlanRepository.Repository.ResultsBeyond` | backend/core/plans/results.go:224-253 | The rows past the first `keep` of the listing that no solve reads are exactly those the results cap removes. |
| `PlanRepository.BeyondTheCap` | backend/core/plans/results.go:225-253 | A row past the first `keep` is one with at least `keep` newer counted results. |
| `PlanRepository.Repository.TrimResults` | backend/core/plans/results.go:219-258 | Removing them one by one is removing them at once. |
| `PlanRepository.Repository.InsertResult` | backend/core/plans/results.go:154-217 | Stores a result and applies the cap; one the cap removes at once, an upload key a result of the plan already has, or a missing plan rolls everything back, each with its own answer. |
| `PlanRepository.Repository.AddResult` | backend/core/plans/results.go:91-152 | Stores a result once: a second send answers with the first and changes nothing, a key reused for another document or source is refused, and so is an upload key that is not 16 to 64 of the allowed characters. |
| `PlanRepository.Repository.PurgeResults` | backend/core/plans/results.go:501-556 | Removes exactly the results in Trash for at least the given days that no open solve reads, stamps each plan that lost one once, and counts them; the others are as they were. |
| `PlanRepository.Repository.DeletePlan` | backend/core/plans/trash.go:91 | Deleting one plan row takes everything that refers to it. |
| `PlanRepository.Repository.Purge` | backend/core/plans/trash.go:61-111 | Removes exactly the plans in Trash for at least the given days, with every version, job and result of theirs and nothing else, one by one, lists their keys first, and entombs exactly those. |
| `PlanRepository.Repository.PurgeCheckpointsOf` | backend/core/plans/checkpoints.go:185-224 | Ends one plan's due checkpoints, applies its cap to the versions that became plain, and counts the ended. |
| `PlanRepository.Repository.PurgeCheckpoints` | backend/core/plans/checkpoints.go:145-183 | Every checkpoint in Trash for at least the given days loses its name, but those of plans that failed, and nothing else of any row changes; it counts all that ended. |
| `PlanRepository.Repository.PurgeTrash` | backend/core/plans/trash.go:50-59 | Plans first, then checkpoints, then results of what is left, with the counts; a part that fails removes nothing and the others go on. By the dates of the rows: which plans and results are left, and which checkpoints lost their names. |
| `PlanRepository.Repository.ChangePlan` | backend/core/plans/plans.go:444-468 | Updates one plan row and stamps its project exactly when the plan is there and out of Trash, or for a restore its owner asks; otherwise changes nothing. |
| `PlanRepository.Repository.ChangeVersion` | backend/core/plans/checkpoints.go:74-102 | The same for one version's checkpoint, exactly when there is one to move or restore, or a name to give. |
| `PlanRepository.Repository.ChangeResult` | backend/core/plans/results.go:439-467 | The same for one result of the plan, exactly when it is out of Trash or to be restored. |
| `PlanRows.PlanEditWrites` | backend/core/plans/plans.go:396-468 | Column by column, what a rename, a transfer, a move to Trash and a restore write, when each takes effect, and that only the project part is stamped, at the next clock value. |
| `PlanRows.VersionEditWrites` | backend/core/plans/checkpoints.go:37-102 | The same for naming a checkpoint, moving it to Trash with the moment, and restoring it with its name. |
| `PlanRows.ResultEditWrites` | backend/core/plans/results.go:394-467 | The same for renaming or pinning a result, moving it to Trash and restoring it. |
| `PlanRows.CreateWrites` | backend/core/plans/plans.go:174-237 | A new plan is its row and version 1 with both stamps, and no other row is touched. |
| `PlanRows.ExportWrites` | backend/core/plans/exports.go:56-109 | A file is recorded while the version or result it was built from is its plan's, and else nothing is. |
| `PlanRows.TrimLeaves` | backend/core/plans/backups.go:12-56 | On the rows: a trim leaves a version exactly when it is another plan's, the newest, named, read by an open solve, or has fewer than `keep` plain ones of its plan between it and the newest. |
| `PlanRows.TrimPlanLeaves` | backend/core/plans/backups.go:82-118 | The same for one plan's own cap, or the server's when it has none; no plan, result or job is touched. |
| `PlanRows.InsertVersionWrites` | backend/core/plans/versions.go:230-280 | On the rows: the insert takes effect exactly when the plan is there, the parent is its newest version and the upload key is empty or new to it, and then writes the next number, the plan's touch and both stamps; every other version left is as it was. |
| `PlanRows.InsertVersionLeaves` | backend/core/plans/versions.go:264-270 | And leaves an older version exactly when the cap, counted with the parent as the first below the newest, keeps it. |
| `PlanRows.InsertResultWrites` | backend/core/plans/results.go:154-217 | On the rows: a stored result has its row as sent under an unused upload key of a plan that is there, one stamp, and every other result left is as it was; otherwise nothing changed. |
| `PlanRows.InsertResultLeaves` | backend/core/plans/results.go:219-258 | It removes exactly the live, unpinned results of the plan that no open solve reads with at least the cap of newer ones, by time made and then id, and when the new one is among those stores nothing. |
| `PlanRows.CheckpointsEnd` | backend/core/plans/checkpoints.go:185-224 | On the rows of one plan: the checkpoints in Trash at the cutoff lose their names, are counted by the cap that then applies, and nothing changes when there are none. |
| `PlanRows.PurgeTakes` | backend/core/plans/trash.go:61-111 | On the rows: which plans, versions, jobs and results a purge takes, and that the others are as they were. |
| `PlanRows.PurgeResultsTakes` | backend/core/plans/results.go:501-556 | On the rows: a result stays exactly when it is out of Trash, went there after the cutoff, or is read by an open solve; no other row is touched. |
| `PlanRows.BurialsLeave` | backend/core/plans/changes.go:232-250 | After it the feed has the project part alone of each plan that went, at a value after the clock, and every other part as it was. |
| `PlanRepository.Repository.Create` | backend/core/plans/plans.go:174-237 | A plan with its first version, both parts stamped. |
| `PlanRepository.Repository.Fork` | backend/core/plans/fork.go:22-112 | Revives the shared key, then copies the chosen or newest version of a live plan as version 1 of a new one; refusals change nothing. |
| `PlanRepository.ForkSharesObject` | backend/core/plans/fork.go:22-25 | A fork names no object that was not named before. |
| `PlanRepository.ForkCopiesOneVersion` | backend/core/plans/fork.go:22-112 | A fork of a version, or of the newest when none is named, is one plain version 1 without parent or upload key over the origin's object with its dates, under a plan with the origin's school year, the new owner and name and no caps of its own; every row there was is unchanged. |
| `PlanRepository.Repository.KeepExport` | backend/core/plans/exports.go:56-109 | Records a file exactly while what it was built from is still the plan's, and otherwise says which is gone. |
| `Undo.TrashIsUndone` | backend/core/plans/trash.go:18-41 | Whatever is moved to Trash, a plan, a checkpoint or a result, the restore beside it brings back every row there was. |
| `Undo.EditsRepeat` | backend/core/plans/plans.go:444-468 | Asking twice for any change of a plan, a checkpoint or a result leaves what asking once did, but for when the plan was touched. |
| `Undo.UpdateIsReadBack` | backend/core/plans/plans.go:391-442 | After an update each field it names is as asked and every other field and plan as before. |
| `Undo.TransferMovesOwner` | backend/core/plans/fork.go:114-126 | After a transfer the old owner cannot restore the plan and the new one can. |
| `Undo.RestoreUndoesTrash` | backend/core/plans/trash.go:18-41 | A plan moved to Trash is not live, and its owner's restore brings back every row; only the feed moved, by two. |
| `Undo.RestoreUndoesDeleteCheckpoint` | backend/core/plans/checkpoints.go:53-72 | A checkpoint in Trash keeps its name, and its restore brings back every row. |
| `Solves.StoppedStaysStopped` | backend/arrango/runner.go:256-286 | In every interleaving, once a revoke, a plan's deletion or a shutdown returned with its waits done, and until its flag is taken back, no solve of that node, of that plan, or of any, is at its node or past its last check. |
| `Solves.ReturnedStays` | backend/arrango/runner.go:260-286 | That a stopper returned, and for what, is never unsaid. |
| `Solves.CloseWaitsExactly` | backend/arrango/runner.go:295-313 | In every run a shutdown that returned had waited exactly when it found the server open, and then every solve ever taken on is done with its row written. |
| `Solves.SecondCloseDoesNotWait` | backend/arrango/runner.go:299-303 | A run in which a shutdown that found the server closed returned while a solve is at its node. |
| `Solves.OneScanIsNotEnough` | backend/api/v1/handlers.go:460-475 | A run in which the plan is already in Trash after the first wait and a solve of it is at its node, which is why the deletion scans again. |
| `SolveRunner.Runner.Take` | backend/arrango/runner.go:106-125 | Registers a solve unless the runner is closed, as the registering step of the system. |
| `SolveRunner.Runner.Drop` | backend/arrango/runner.go:138-146 | A solve that ended leaves the registry and no other does, as the step after which those waiting on it go on. |
| `SolveRunner.Runner.Cancel` | backend/arrango/runner.go:229-243 | Cancels one running solve and says whether there was one. |
| `SolveRunner.Runner.CancelWhere` | backend/arrango/runner.go:267-286 | Cancels exactly the solves of the node, of the plan, or all of them, in any order, leaves the others as they were, and answers exactly those to wait for: the scan of a revoke or a deletion, and the first pass of a deletion. |
| `SolveRunner.HitByField` | backend/arrango/runner.go:253-286 | Which solves those are, by their node and plan. |
| `SolveRunner.Runner.CloseRunner` | backend/arrango/runner.go:295-313 | The first close refuses new solves and cancels every running one, the flag and scan steps of a shutdown; a later one only returns. |
| `SolveRunner.Runner.Observe` | backend/arrango/runner.go:176-201 | Counts each timetable that arrived and keeps it with its own score and verdict unless it is worse than the one kept. |
| `SolveRunner.Runner.Follow` | backend/arrango/runner.go:174-201 | After any stream the preview is the last of the best timetables the search sent, and the count is how many arrived. |
| `SolveRunner.PreviewIsResult` | backend/arrango/runner.go:174-201 | When the final frame brings no timetable, the preview and the stored result are the same timetable. |
| `SolveStream.Wait` | solveclient/solve.go:167-188 | Over any stream, broken or not, what is kept is the last of the least-objective timetables of the frames that arrived. |
| `SolveStream.LastWordStays` | solveclient/solve.go:210-241 | The ending, the message, the configuration and the explanation reported are each those of the last frame that said one. |
| `SolveStream.NoWordIsMadeUp` | solveclient/solve.go:210-241 | Where no frame says one, none is reported. |
| `SolveStream.ReportInWords` | solveclient/solve.go:210-241 | Field by field: status and refusal of the last final frame, message and configuration of the last frame with one, explanation of the last final frame with one. |
| `SolveStream.LastTakenIsReported` | solveclient/solve.go:251-272 | The score, verdict and validation reported are those of the last frame taken that had one. |
| `SolveStream.AnalysisRidesAlong` | solveclient/solve.go:243-272 | Each is the kept timetable's own exactly when that frame had one and no later frame brings one without a timetable. |
| `SolveStream.ScoreInWords` | solveclient/solve.go:243-272 | When no later frame brings a score, verdict or validation without a timetable, those the kept timetable came with are reported. |
| `SolveStream.ScoreCanBeAnothers` | solveclient/solve.go:251-272 | A stream whose reported score belongs to another timetable than the one kept. |
| `SolveJobs.Judge` | backend/arrango/dispatch.go:152-175 | A solve is done exactly when its stream ended cleanly, was not cancelled and brought a timetable; a failure always has a reason. |
| `SolveJobs.Conclude` | backend/arrango/dispatch.go:152-225 | A done outcome has a stored result when there is a store; a timetable that could not be stored fails a solve that was done and says so. |
| `SolveJobs.Jobs.Create` | backend/arrango/jobs.go:110-142 | A new job is pending on its node with the workers it was given. |
| `SolveJobs.Jobs.Start` | backend/arrango/jobs.go:160-168 | Only a pending job starts. |
| `SolveJobs.Jobs.Grant` | backend/arrango/jobs.go:170-178 | Replaces what the node echoed, and leaves a value it did not. |
| `SolveJobs.Jobs.Finish` | backend/arrango/jobs.go:207-259 | Closes an open job once with a terminal outcome; a closed one stays as it is. |
| `SolveJobs.CountFollows` | backend/arrango/jobs.go:394-403 | The count of a node goes up by one for a job opened there, down by one for each that closes or goes, and by nothing else. |
| `SolveJobs.Jobs.CloseOrphans` | backend/arrango/jobs.go:405-425 | Fails every open job, and then no job counts against any node. |
| `Dispatches.NamedResultIsBest` | backend/arrango/dispatch.go:176-196 | In every run of solves, each reading its stream, keeping its timetable and closing its row, a result that a row names was stored for that job with the last of the best timetables of its own stream, and the row's score and verdict are of that stream. |
| `Dispatches.DoneHasResult` | backend/arrango/dispatch.go:176-196 | In every run a job that says done has such a result, and its stream ended cleanly. |
| `Dispatches.ResultsAreTheirOwn` | backend/core/results/results.go:87-117 | No two jobs name one result. |
| `Dispatches.EverySolveRuns` | backend/arrango/dispatch.go:152-225 | Whatever arrives, however the stream ends and whatever storing its timetable answers, there is a run of the system in which the job's row closes with exactly that outcome. |
| `SolveJobs.ClosedIsFinal` | backend/arrango/jobs.go:207-259 | Once closed a job is never reopened and its outcome never changes for as long as its row is there, purged plans included. |
| `Admission.WithinIsTheMost` | backend/arrango/limits.go:37-57 | Lowered limits are allowed by the ceilings, are the most of the limits that are, stay at least 1, and lowering twice is lowering once. |
| `Admission.DefaultIsSane` | backend/arrango/limits.go:22-35 | A new node's limits are usable, allowed by its ceilings, and as many solves at once as it allows, or one. |
| `Admission.AffordableFits` | solveclient/status.go:65-80 | The workers memory allows fit with the base, and one more would not unless the cores are the limit. |
| `Admission.AdmittedFits` | backend/arrango/admission.go:106-158 | An admitted solve has at least 1 worker and at most every limit, ceiling, core and request there is, its memory fits what is free, and its node is below both solve limits. |
| `Admission.AdmitsExactly` | backend/arrango/admission.go:106-158 | A node takes a solve exactly when every limit leaves room, the time budget is allowed and one worker's memory is free. |
| `Admission.RefusesExactly` | backend/arrango/admission.go:106-158 | And otherwise refuses for exactly one reason, each with its own condition on limits and reply: no capacity, unreachable, model refused, outdated and what is missing, or a budget above the longest allowed. |
| `Admission.AsManyAsAllowed` | backend/arrango/admission.go:143-155 | It gives as many workers as asked for, or exactly as many as one of the bounds allows. |
| `Admission.ZeroIsNoCeiling` | solveclient/solve.go:55-66 | A grant stays within what memory affords, whatever is asked, exactly when the limit is not 0 in 32 bits or the node affords the most of all. |
| `Admission.Admit` | backend/arrango/admission.go:65-104 | The first node in order that takes the solve or refuses the request itself decides; otherwise the refusal is busy, silent, too long with the longest budget allowed, outdated or none, in that order. |
| `Admission.FirstThatTakes` | backend/arrango/admission.go:82-104 | A node with room by every limit gets the solve when each one before it is full, silent, outdated or allows too little time. |
| `Admission.RefusedForAReason` | backend/arrango/admission.go:87-104 | Why nothing was admitted, on limits and replies: a refused model only if a node refused it, unreachable only if one is silent and none is full, too long or outdated only if nothing else stands in the way. |
| `Admission.NodesDecide` | backend/arrango/admission.go:65-104 | The same on the registered nodes in order, revoked ones passed over: the first that takes the solve or refuses its model decides; else the answer is one that some node gave and none outranks, too long with the longest budget any allows. |
| `Admission.Begin` | backend/arrango/dispatch.go:103-150 | Under the mutex a job is opened, pending, with the admitted workers and the budget it gets, exactly as an unrevoked node admitted it with its open jobs counted then and its reply: the named node, or the first in order that takes it when every one before it refused for another reason than the model; a refusal opens nothing, and means that no such node takes it. |
| `AdmissionRuns.StepKeeps` | backend/arrango/dispatch.go:103-150 | One step of an admission, a job's end, a purge or the registry keeps the invariant behind the next rows. |
| `AdmissionRuns.OpensWithinBounds` | backend/arrango/dispatch.go:129-150 | However they interleave, a job opens only while its node has fewer open jobs than its limit and ceiling, with at least one worker, no more than limit, ceiling and cores, and with base and workers within free memory. |
| `AdmissionRuns.BeginIsSteps` | backend/arrango/dispatch.go:103-150 | What `Begin` does under the mutex is three steps of that system. |
| `AdmissionRuns.OthersAreSteps` | backend/arrango/dispatch.go:103-150 | What other calls do to jobs and registry in between are steps of it too. |
| `AdmissionRuns.NeverAboveLimit` | backend/arrango/dispatch.go:129-150 | While a node's limit was never above a number, it never had more open jobs than that, jobs and limits changing in any order. |
| `NodeRegistry.Registry.ByFingerprint` | backend/arrango/registry.go:189-200 | Finds the row of an identity exactly when there is one. |
| `NodeRegistry.Registry.Record` | backend/arrango/registry.go:72-126 | A known identity keeps its row, id and name, loses a revocation and gets limits within its ceilings; a new one needs a name and starts at the defaults. |
| `NodeRegistry.Registry.Update` | backend/arrango/registry.go:135-156 | Changes the named fields of one row. |
| `NodeRegistry.Registry.Revoke` | backend/arrango/registry.go:244-264 | Takes exactly this node from those that can be dispatched to; revoking twice keeps the first date, and only an unknown node is an error. |
| `NodeRegistry.Registry.Active` | backend/arrango/registry.go:207-210 | Exactly the unrevoked nodes, earliest paired first, then by id. |
| `NodeRegistry.AlwaysSound` | backend/arrango/registry.go:72-126 | In every history each identity has one row and every node's limits are usable. |
| `NodeRegistry.IdIsForGood` | backend/arrango/registry.go:72-74 | A node's id is its identity's for good, however often it is revoked and paired again. |
| `Checks.StepKeeps` | backend/core/checks/checks.go:101-202 | One step of a request, of a flight's goroutine or of the cache keeps the invariant behind the next rows. |
| `Checks.AnswersComeFromRuns` | backend/core/checks/checks.go:101-123 | In every run each report answered for an object, cached or joined, came from a node asked about that object. |
| `Checks.OneFlightEach` | backend/core/checks/checks.go:125-165 | Each plan's versions and each result have at most one check under way that is not being stopped. |
| `Checks.ResultsRunOn` | backend/core/checks/checks.go:126-139 | A result's check is never stopped by another. |
| `Checks.StoppedByNewer` | backend/core/checks/checks.go:141-150 | A check is stopped only for another object of the same or a newer version of the same plan. |
| `Superseding.SupersededWasOutdone` | backend/core/checks/checks.go:29-30 | In every run a check told it was replaced was, by another object of the same plan under the same version or a newer one, or two others asked about had confused it. |
| `Superseding.WronglyReplacedExactly` | backend/core/checks/checks.go:29-30 | For every set of subjects asked about, a check can be wrongly told it was replaced exactly when the set holds one object under two version numbers and another object of the plan numbered from the lower up to below the higher. |
| `Superseding.JoinersCanBeReplacedByOlder` | backend/core/checks/checks.go:141-150 | For every three such subjects a run asking only about them ends with the newest told it was replaced though only older ones were asked about. |
| `Superseding.TenIsReplacedBySix` | backend/core/checks/checks.go:141-150 | Version 10 of an object joins its version 5, and version 6 of another replaces both. |
| `CheckService.Service.Check` | backend/core/checks/checks.go:101-112 | The first look at the cache is a step; a hit is the last report kept for that object, and one a node gave for it. |
| `CheckService.Service.Join` | backend/core/checks/checks.go:125-165 | One pass under the mutex is the join step, case by case: wait behind another check of a result, join the same object's, refuse what is older than what runs, and else stop what runs and start, unless the cache has it. |
| `CheckService.Service.Answer` | backend/core/checks/checks.go:167-178 | A failed check says it waited too long, else that it was replaced if it was, else why it failed. |
| `CheckService.Service.Store` | backend/core/checks/checks.go:179-182 | A report goes to the bounded cache, which is the caching step. |
| `CheckService.Service.LeaveRegister` | backend/core/checks/checks.go:183-187 | A flight leaves the register only if no other took its place, which is the dropping step. |
| `CheckService.Service.Tell` | backend/core/checks/checks.go:200-201 | Those who wait on a flight are told what it ended with, which is the landing step. |
| `CheckService.Service.Land` | backend/core/checks/checks.go:179-201 | Cached, then dropped from the register if still there, then told: three steps after which the flight is registered nowhere. |
| `CheckCache.Cache.constructor` | backend/core/checks/cache.go:25-27 | Starts empty. |
| `CheckCache.Cache.Get` | backend/core/checks/cache.go:29-38 | A hit answers the last report kept for the key and makes it the most recent; a miss changes nothing. |
| `CheckCache.Cache.Put` | backend/core/checks/cache.go:40-54 | The list and the map stay the most recent 64 keys of all uses ever made, each with its last report. |
| `CheckCache.Cache.Shrink` | backend/core/checks/cache.go:49-53 | Dropping the last until it fits keeps the newest 64 and no other report changes. |
| `CheckCache.PlaceIsOthersSince` | backend/core/checks/cache.go:36-53 | A key's place in the list is how many other keys were used since it was. |
| `CheckCache.CachedWhileRecent` | backend/core/checks/cache.go:40-54 | A key once used is cached exactly when fewer than 64 other keys were used since. |
| `Lockout.Invalid` | backend/core/lockout/lockout.go:38-50 | Names a field exactly when one is outside its range. |
| `Lockout.SaneLater` | backend/core/lockout/lockout.go:144-165 | What holds of a table between calls still holds as the clock moves on. |
| `Lockout.LimitsInForceDecide` | backend/core/lockout/lockout.go:89-94 | However limits changed before, a failure outside a block blocks exactly when the count it makes reaches the limit in force then, for the block in force then. |
| `Lockout.Guard.Blocked` | backend/core/lockout/lockout.go:103-114 | The longer of the two waits; zero exactly when neither block is in force. |
| `Lockout.Guard.Failed` | backend/core/lockout/lockout.go:116-129 | Counts the failure against the normalised name and the address, each in its own table, and an empty one not at all; both stay within the bound. |
| `Lockout.Guard.Succeeded` | backend/core/lockout/lockout.go:131-136 | Clears the name alone. |
| `Lockout.Count` | backend/core/lockout/lockout.go:145-165 | One failure: room is made for a new key, a running block changes nothing, an old window starts over, and the limit starts a block. |
| `Lockout.CountedInWords` | backend/core/lockout/lockout.go:145-165 | By the fields of the entries: nothing changes in a block; else the failure is the first of a new window or one more of the running one and blocks when that reaches the limit; no other entry changes, and a new key starts from nothing. |
| `Lockout.MakeRoom` | backend/core/lockout/lockout.go:167-189 | Below the bound nothing goes; at it what ran out goes, and if that is not enough the oldest of the rest. |
| `Lockout.RoomIsMade` | backend/core/lockout/lockout.go:167-189 | There is room afterwards, and what stays is unchanged. |
| `Lockout.RoomInWords` | backend/core/lockout/lockout.go:167-189 | By the fields: below 10000 entries nothing goes; at it exactly those whose block is over and whose failures, if any, are a window old, and another only when none is, and then one noted no later than any other. |
| `Lockout.BlocksGoLast` | backend/core/lockout/lockout.go:167-189 | A running block is evicted only when every tracked entry is a running block, under whatever limits are in force. |
| `Lockout.RunOutIsFresh` | backend/core/lockout/lockout.go:173-177 | An entry that ran out counts the next failure as a key never tracked would, so forgetting it loses nothing. |
| `Lockout.LimitBlocks` | backend/core/lockout/lockout.go:145-165 | Failures within one window block at exactly the limit, for exactly the block's length, and the count starts over. |
| `Lockout.BlockHolds` | backend/core/lockout/lockout.go:153-155 | Failures during a block change nothing and it ends when it said, however often the limits change meanwhile. |
| `Lockout.CountsStayBelow` | backend/core/lockout/lockout.go:145-165 | In every history of a table under fixed limits, no count ever reaches the limit. |
| `Lockout.AtMostTwoWindowsInTable` | backend/core/lockout/lockout.go:145-189 | In every history of a table, whatever happens to other keys, a span no longer than a block, in which a key is neither cleared nor evicted and no block of it starts or runs, holds at most 2 * (limit - 1) of its failures. |
| `Lockout.AtMostTwoWindows` | backend/core/lockout/lockout.go:145-165 | The same for the failures of one entry. |
| `Lockout.TheBoundIsReached` | backend/core/lockout/lockout.go:145-165 | Under every limit and block length that many can. |
| `Utf8.DecodeOfEncode` | document/gpf/header.go:134-168 | A text written as UTF-8 reads back as itself. |
| `Utf8.EncodeOfDecode` | document/gpf/header.go:164-167 | Bytes that are valid UTF-8 are the only way to write their text. |
| `GpfHeader.Header.Set` | document/gpf/header.go:81-95 | Adds, replaces in place or removes a field; names stay distinct and values trimmed and not empty. |
| `GpfHeader.SetKeepsSound` | document/gpf/header.go:81-95 | Setting any field keeps each name once, in the order first set. |
| `GpfHeader.Header.MeasureNames` | document/gpf/header.go:113-118 | The width is the longest name in bytes. |
| `GpfHeader.Header.Encode` | document/gpf/header.go:103-135 | Writes one padded line a field between brand and end, exactly when every field may be written. |
| `GpfHeader.WritableInWords` | document/gpf/header.go:137-156 | Every field may be written exactly when no name is empty or holds a colon, blank, tab, line break or NUL, and no value is above 4096 bytes or holds a line break or NUL. |
| `GpfHeader.BlockInWords` | document/gpf/header.go:103-135 | The block line by line: brand, lead, each field padded so that the values stand in one column after the longest name, and the end. |
| `GpfHeader.ReadHeader` | document/gpf/header.go:158-200 | Reads what the specification of a block parses to, and refuses what it refuses; what is read is sound. |
| `GpfHeader.LineInWords` | document/gpf/header.go:170-198 | A line that is blank or a comment says nothing; one without a colon, with a name already there or with a name or value that could not be written refuses the block; any other sets its field. |
| `GpfHeader.BlockIsItsLines` | document/gpf/header.go:158-200 | Every line between brand and end is read, and no other. |
| `GpfHeaderRoundTrip.HeaderRoundTrip` | document/gpf/header.go:103-200 | A block that can be written reads back as itself, in its order, exactly when no name starts with `#` or has outer Unicode space. |
| `GpfHeaderRoundTrip.CommentsAreLost` | document/gpf/header.go:137-183 | A field that is written without complaint and lost on reading. |
| `GpfContainer.LittleRoundTrip` | document/gpf/gpf.go:212-220 | Little-endian integers read back, and a length past 32 bits wraps. |
| `GpfContainer.PreheaderRoundTrip` | document/gpf/gpf.go:176-220 | A written preheader reads back as itself, whatever follows. |
| `GpfContainer.PreheaderAcceptedExactly` | document/gpf/gpf.go:176-220 | A file is accepted with a preheader exactly when it begins with that preheader written, its flags are known and fit, and the header is within its cap and the file. |
| `GpfContainer.PreheaderRefusals` | document/gpf/gpf.go:176-210 | Other bytes are refused for the first thing wrong with them: not the magic, another version, which unknown critical flags, or malformed. |
| `GpfContainer.WrittenBytes` | document/gpf/gpf.go:204-220 | What is written byte by byte: magic, version, flags and length of a preheader, type and length of a chunk, length and magic at the end, lowest byte first. |
| `GpfContainer.ReadPayload` | document/gpf/gpf.go:222-268 | The loop over offsets answers what the walk over frames does, with every slice in bounds on every input. |
| `GpfContainer.AcceptedExactly` | document/gpf/gpf.go:222-268 | A region is accepted with a payload exactly when it is a concatenation of frames within the cap, one of them that payload and no other critical. |
| `GpfContainer.InsertingIsHarmless` | document/gpf/gpf.go:222-268 | Frames of unknown non-critical types, inserted anywhere, change nothing. |
| `GpfContainer.UnknownCriticalIsRefused` | document/gpf/gpf.go:240-256 | A frame of any other critical type is refused by that type. |
| `GpfContainer.OnePayload` | document/gpf/gpf.go:222-268 | One payload among frames that may be passed over, before and after it, is what is read; a second payload, and none at all, are refused. |
| `GpfContainer.PayloadRoundTrip` | document/gpf/gpf.go:270-276 | A written payload reads back exactly when it is within the cap. |
| `GpfContainer.FooterFoundExactly` | document/gpf/gpf.go:278-313 | A footer and a region are found exactly when the rest of the file is that region, that footer and its locator, within the cap. |
| `GpfContainer.FooterRoundTrip` | document/gpf/gpf.go:278-313 | The footer and the region before it are found from the end of any file. |
| `GpfFile.HeaderStates` | document/gpf/file.go:71-93 | The written header states the mode the flags mean, its format and the number of keys, whatever the caller set, and keeps every other line; a footer nobody gave repeats mode and format. |
| `GpfFile.WrittenExactly` | document/gpf/file.go:57-100 | When a file can be written: the document encodes, one kind of key at most, and both blocks may be written within 1 MiB and 64 KiB; and the refusal otherwise. |
| `GpfFile.CallersNamesDecide` | document/gpf/file.go:71-93 | Every name of a written file survives reading exactly when the caller's own do. |
| `GpfFile.KeysDecide` | document/gpf/crypto.go:70-167 | Unwrapping what was wrapped gives it back exactly to a reader with a key, unless a password was sealed at a cost above the one it pays, and otherwise says what is missing, wrong or not tried. |
| `GpfFile.WrittenFileReads` | document/gpf/file.go:57-166 | What any reader gets from a written file whose names survive and whose payload is within the cap: when it states a realm, the reader has one and they differ, the refusal with both, before any key is tried; and otherwise the key decides. |
| `GpfFile.FileRoundTrip` | document/gpf/file.go:57-166 | When either states no realm or they state the same, such a file reads back as its document, both blocks in their order and its mode: always when plain, exactly with a fitting key when sealed to keys, and exactly with its password at a work factor of at most 20; each other case with its own refusal. |
| `GpfFile.ReadsBackExactly` | document/gpf/file.go:57-166 | A file that could be written within the payload cap reads back as it was written exactly when its caller's names survive, either realm is empty or they are equal, the reader has the password or a fitting key, and a password's work factor is at most 20. |
| `GpfFile.NoForeignFileOpens` | document/gpf/crypto.go:54-67 | Whoever made the bytes: what opens states no realm or the reader's, where both have one, and no mode or the one its flags mean. |
| `GpfFile.LostNamesAreSeen` | document/gpf/file.go:71-93 | A file with a name that does not survive never reads back with the blocks it was written with. |
| `GpfFile.CostlyPasswordIsRefused` | document/gpf/crypto.go:14-22 | A file sealed with work factor 21 that could be written is refused to the holder of its password. |
| `GpfCodecs.CostlyFileIsWritten` | document/gpf/crypto.go:148-150 | There is such a file: with functions that obey every law asked of sealing it is written, and refused. |
| `GpfCodecs.OpenIsLawful` | document/gpf/crypto.go:70-167 | Whatever keys fit whatever recipients, there are functions that obey those laws. |
| `Ignored.WriteKey` | document/ignored.go:36-64 | Writing the key part by part gives the key of the finding. |
| `Ignored.Ignoring.constructor` | document/ignored.go:18-25 | Holds the keys of exactly the document's ignored findings. |
| `Ignored.Ignoring.Ignores` | document/ignored.go:27-30 | Looks the finding's key up. |
| `Sorting.SortIsCanonical` | document/ignored.go:41-60 | Lists equal as multisets are equal once sorted. |
| `Ignored.SameFindingSameKey` | document/ignored.go:36-64 | However a finding's lists are ordered, its key is one text. |
| `Ignored.SameKeySameFinding` | document/ignored.go:36-64 | Without a separator in an entity kind, two findings with one key are the same finding. |
| `Ignored.IgnoresExactly` | document/ignored.go:18-30 | Then a document ignores a finding exactly when one of its ignored findings is it in some order. |
| `Ignored.ServerFindingsArePlain` | backend/core/checks/convert.go:264-311 | No entity kind the server writes holds a separator. |
| `Ignored.CommasConfuse` | document/ignored.go:37-48 | Any two entities have one key with a single entity of a kind that holds a comma. |
| `Ignored.BarsConfuse` | document/ignored.go:36-64 | Every entity kind with a bar gives two findings of different kinds with one key. |
| `Lookalikes.LookalikesExactly` | document/ignored.go:36-64 | A finding has the key of a plain finding that is not the same one exactly when it is not plain and what follows the last bar of its entities reads as a list: entity texts in order, with commas between. |
| `Lookalikes.KindsDecide` | document/ignored.go:36-64 | An entity kind can be confused with a plain finding in this way exactly when it holds a comma or a bar and what follows its last bar, with the id 999999999, reads as a list. |
| `Folders.TidyFolders` | backend/core/library/check.go:67-86 | Passes exactly well-formed folders, trims their names in place and collects their parents. |
| `Folders.WellFormedInWords` | backend/core/library/check.go:67-86 | What is asked of each folder, character by character: at most 500, distinct ids of 1 to 64 letters, digits, `_` or `-`, trimmed names of 1 to 200 characters, accents of at most 32. |
| `Folders.Climb` | backend/core/library/check.go:87-97 | Ends on every input: the folder's depth, or a parent that is missing, or a cycle that is there. |
| `Folders.CheckFolders` | backend/core/library/check.go:62-103 | Accepts exactly well-formed folders whose parents form a forest of depth at most 8, and answers an unknown parent, a cycle or a folder too deep only when there is one. |
| `Folders.ForestInWords` | backend/core/library/check.go:87-101 | That is: from each folder a way of at most 8 folders, each the next one's child, leads to one at the top. |
| `Folders.CyclesAreRefused` | backend/core/library/check.go:87-101 | A folder whose way up goes round is never accepted. |
| `Folders.LongWayIsACycle` | backend/core/library/check.go:89-97 | A way up that passes more folders than there are goes round, by pigeonhole. |

## Left out

- SQL text, drivers, dialects and isolation levels: each transaction is one atomic step at one moment (a stamping one is two in `Mirror`), and its failure is a set of plans or keys that fail.
- HTTP, gRPC, dialling, pairing, pinning and deadlines: a node is a value it answers, and time limits are outcomes.
- zstd, protobuf, age, scrypt and SHA-256: functions with the laws of inverses in `GpfFile`, and object keys as given values elsewhere.
- Columns that no rule here reads: sizes, summaries, devices, quality, verdict text, rule profiles, progress, memory and processor use; and the cleaning of names before they are stored.
- Random ids and epochs are new; the clock never goes back, and a sweep's own time is not ahead of it.
- A discard that fails and a crash between an object's write and its commit or discard: such an object stays for ever, which is the one exception to `ObjectStore.NothingLeaks`.
- Restoring an older copy of the database under the same epoch: a cursor handed out since can then skip changes.
- That waits end: `Solves` and `Checks` are about what holds in every state, not about progress.
- Reading a kept exported file (`backend/core/exports/exports.go:138-167`) and its single flight: only the build that stores one is modelled.
- `backend/core/library/check.go:17-61` outside the folders, and the limits of recent plans: they would add only easy members.
- Kratos accounts, escrow, rule-profile storage, importers, the command line, the interface, logging and configuration.
- ObjectStore.NothingDangles: assumes each upload commits within the hour, as the source does; `TheHourIsExact` shows it is needed.
- Uploads.Add: once the sweeps it waits for are over; the look for an earlier send follows a refused insert at once.
- Uploads.NewPlan: the plan's name is already clean.
- Uploads.Build: from the built bytes on.
- Uploads.UploadVersion: once the sweeps its insert waits for are over; the upload commits or is discarded within its hour, as `ObjectStore` assumes.
- PlanRepository.Repository.AddVersion: one read at most breaks in a call, beside the insert.
- OpenSolves.ReadVersionStays: a solve opened on a version that was trimmed before its row was written reads what it loaded.
- Checks.AnswersComeFromRuns: about the report and its object; how a report is read from a node's answer is not modelled.
- GpfHeader.Header.Encode: fields are Unicode text, so a value that is not valid UTF-8 cannot be written down here.
- Lockout.Guard.Failed: how a name is trimmed and lower-cased is a parameter.
- Lockout.AtMostTwoWindowsInTable: with limits fixed and the key neither cleared nor evicted, as the bound needs.
- Dispatches.NamedResultIsBest: of the result as it was stored; it may be trimmed or purged later.
- GpfFile.CostlyPasswordIsRefused: work factors age itself does not take (above 30) are not modelled.
- NodeRegistry.Registry.Update: the caller has checked the limits, as the source says of itself.
- Folders.CheckFolders: characters of a name are counted as the letters they are, without normalisation.
