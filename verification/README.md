# Libriant operator protocols and lexers

Libriant is a multi-tenant library system in which every library has a database of its own. Its
`scripts/` directory holds the operator commands that move a live library between states while
API processes and workers keep using it, and the small lexers that guard its SQL and source
files. This project models the hard ones and proves what they keep, over every interleaving,
every crash and every input.

Check everything with `dafny verify dfyconfig.toml`.

## What is modelled

| module | what it models | form |
|---|---|---|
| `TenantResolver` | the resolver's two-layer cache: a shared Redis flag, an address map in each process | functions on a cache value |
| `Relocation` | moving a tenant to another host while HTTP requests and workers write | step relation over every interleaving |
| `RelocationRun` | the same script as straight-line code with its shared `catch` | class; every run is a history of `Relocation` |
| `Rotation` | rotating two-slot database credentials in batches, with caches and requests | step relation over every interleaving |
| `RotationRun` | the same script as its loops, with failures at every statement | class; every run is a history of `Rotation` |
| `DropSource` | dropping the abandoned copy, over histories of relocations and drops | functions and a class |
| `OnlineScript`, `OnlineTrack` | online migration scripts: the parser, and the crash-resumable runner with ledger and barrier | methods and a class refining a step machine |
| `OnlineLedger` | what the ledger's row counts, errors and passes say over every history | lemmas on the step machine |
| `FanOut` | N workers migrating tenants from one queue; the run ledger; resuming | step relation, and a class for one worker |
| `SchemaCutover` | a Postgres catalogue with renames, extension moves and `DROP SCHEMA … CASCADE`; the 2.0 cutover and its rollback | class of transactions over catalogue functions |
| `SchemaExample` | one small library on both sides of each of the rollback's checks | concrete catalogues |
| `SqlScan` | the position-preserving SQL scrubber | array loop refining a recursive lexer |
| `SqlGrammar` | what every kind of SQL token becomes, in its own characters | lemmas on the lexer |
| `MigrationSafety` | the balanced spans found in scrubbed SQL | methods against a depth function |
| `SpanGrammar` | which text a span covers, in its own characters | lemmas on the spans |
| `AlertComments` | the TypeScript comment stripper | automaton refining a lexer |
| `CommentGrammar` | what every kind of TypeScript lexeme becomes, in its own characters | lemmas on the lexer |
| `EnvFile` | the env-file store | class over parser and printer functions |
| `EnvGrammar` | every form a definition and a value can take, in its own characters | lemmas on the parser |
| `ShellLimits` | the desktop shell's sliding-window limiters | class over history functions |
| `Basics` | an option type and a lemma on set sizes | |

A `…Grammar` module has no operation of its own: it says what the module before it does to each
construct, with the construct given as a string, so that the lexers' own predicates are not the
measure of themselves.

A protocol is a list of labels: the script's next statement succeeding or failing, its process
dying, the clock, and everything other processes do. `Run` folds the labels, and the theorems
quantify over all of them.

## Where the code differs from its documentation

* **Relocation, two API processes.** `tenant-relocate.ts:115-124` expects no straggler beyond one
  request after the resolver cache is busted. The bust deletes the shared Redis entry only; when a
  second process refills it, the first serves its old address until its own entry expires
  (`TenantResolver.BustMissesSecondProcess`). `Relocation.NothingIsLostIff` gives the exact
  condition on both waits, and with two processes the default second wait of 15 s does not meet it.
* **Relocation, after the commit.** The shared `catch` (`tenant-relocate.ts:392-412`) reports that
  the tenant is on its source and unfences it even when only the cache bust after the committed
  transaction failed: `Relocation.FailedBustLosesAWrite`. `Relocation.NothingIsEverLostIff` is the
  exact condition when that path (`abandoned`) counts: the waits are long enough and the bust
  cannot fail. The safety theorem covers everything else: success, failures up to and including
  the transaction, failures after the second wait, and the process dying anywhere.
* **Relocation, before the `try`.** Two failures leave the tenant fenced with nothing to lift it:
  signalling the backends, which follows the fence in the same function, and creating the temporary
  directory (`tenant-relocate.ts:246`), which follows the wait. The clause on `s.fence` of
  `RelocationRun.Relocator.Relocate` says so for every fault.
* **Rotation.** The default grace of 60 s is shorter than the 300 s TTL, so "a request in flight at
  any point holds a credential that still works" needs a single process whose cache bust succeeds,
  and rotations spaced at least as far apart; `Rotation.ZeroFailedIff` states the exact condition on
  both. A script that dies between its commit and its bust needs the TTL in the spacing, too.
* **Online track.** The barrier comes down after the last script if and only if some process lives
  to lower it (`OnlineTrack.BarrierClearsIff`); a crash just before that leaves it up through every
  rerun (`OnlineTrack.StuckBarrierIsReached`). A repeated step that has not settled within
  `maxPasses` is still recorded as done, and crashes can then show: `OnlineTrack.RecordsAreCleanIff`
  has the exact condition for every track, and `OnlineTrack.RobustIffWellWritten` what it amounts to
  where row counts tell whether the data changed.
* **Fan-out.** `--concurrency=abc` becomes NaN, no worker starts, and the run closes as completed;
  a closed run has done its work if and only if the flag is a number (`FanOut.ClosedIsCompleteIff`).
  Resuming a resume migrates again exactly what the first run had recorded as ok and is selected
  both times (`FanOut.SecondResumeForgets`).
* **Cutover.** The rollback's four checks do not notice 1.0 objects lost because they used a 2.0 one
  (`SchemaCutover.RollBackLosesExactly`; `SchemaExample.LossGoesUnnoticed` is such a library). The
  pre-flight on unlisted extensions that `tenant-upgrade-v2.ts:134-136` announces is not in the code,
  and a rollback restores the 1.0 database only if every extension was in `public`:
  `SchemaCutover.UndoInvertsCutoverIff` has both conditions. Of the four checks the one on citext can
  never fail, and the one on the extensions fails exactly when one that is not listed lives outside
  the 2.0 schema (`SchemaCutover.ExtensionChecksIff`).
* **Env file.** A value that is only a comment (`KEY= # none`) reads as the comment. An unquoted
  value is read as `secrets.ts:531-535` promises if and only if it is not of that kind
  (`EnvFile.ReadsAsShellIff`).

## Model

| member | source | states |
|---|---|---|
| `TenantResolver.ResolveKeeps` | apps/api/src/tenancy/tenant-resolver.service.ts:248-288 | entries that are not the current row are never younger than the cutover, one process without a stale shared hit always reads the row, and past one TTL every process does |
| `TenantResolver.BustServesOneProcess` | scripts/tenant-relocate.ts:672-683 | after a bust a fleet of one process reads the row, and nothing else, over every later sequence of resolves, expiries and evictions |
| `TenantResolver.BustMissesSecondProcess` | apps/api/src/tenancy/tenant-resolver.service.ts:248-288 | with two processes, the refill by one revives the other's old entry |
| `Relocation.NoAcceptedWriteIsLost` | scripts/tenant-relocate.ts:229-412 | in every interleaving every accepted write is in the database the control plane names: at the destination on success, at the source on failure up to the transaction, given waits that cover signalled backends and old addresses |
| `Relocation.FirstWaitQuietsTheSource` | scripts/tenant-relocate.ts:241-244 | from the end of the first wait to the transaction no session can commit on the source, whatever was open at the fence |
| `Relocation.SourceIsRetired` | scripts/tenant-relocate.ts:352-383 | once the control plane names the destination, no enabled write changes the source |
| `Relocation.WritesResumeAtTheDestination` | scripts/tenant-relocate.ts:352-380 | after the window closes every process resolves the destination |
| `Relocation.WhoTakesWrites` | scripts/tenant-relocate.ts:229-244 | a session opened now takes a write exactly when it is a destination's, or the source is not fenced |
| `Relocation.ShortWaitLosesAWrite` | scripts/tenant-relocate.ts:101-125 | for every shorter first or second wait there is a run in which everything succeeds and a write is lost |
| `Relocation.NothingIsLostIff` | scripts/tenant-relocate.ts:241-383 | no write is lost in any run if and only if the first wait covers a signalled backend and the second covers one request, plus a TTL when there are two processes or more |
| `Relocation.NothingIsEverLostIff` | scripts/tenant-relocate.ts:352-412 | and counting the runs in which the bust after the commit fails, if and only if moreover it cannot |
| `Relocation.FailedBustLosesAWrite` | scripts/tenant-relocate.ts:392-401 | a bust that fails after the commit unfences at once and loses a write, whatever the waits |
| `RelocationRun.Relocator.FenceTenant` | scripts/tenant-relocate.ts:229-247 | what each failure before the `try` leaves: control plane, fence and window; and that the source is quiet when it is over, for a first wait that is long enough |
| `RelocationRun.Relocator.CopyTenant` | scripts/tenant-relocate.ts:249-300 | dump, create, restore, verify and role provisioning move neither the control plane nor the fence |
| `RelocationRun.Relocator.SwitchOver` | scripts/tenant-relocate.ts:302-380 | the control plane moves with the transaction and with nothing else; the fence stays on throughout; the window ends with its own update, whether or not the mode cache is busted after it |
| `RelocationRun.Relocator.OpenWindow` | scripts/tenant-relocate.ts:229-241 | what each failure of the window, the mode cache, the fence and the signal leaves |
| `RelocationRun.Relocator.Relocate` | scripts/tenant-relocate.ts:229-412 | the final control plane, fence, window and place, with the failing statement named, for the success and for every failure; and that no write is lost unless the bust was the one to fail |
| `Rotation.RowAlwaysUsable` | scripts/tenant-rotate-db-creds.ts:190-296 | over any history of batches failing or dying anywhere, a row on a slot names a role that can log in with the sealed password |
| `Rotation.SlotInUseIsNeverTouched` | scripts/tenant-rotate-db-creds.ts:14-31 | no step re-issues or retires the slot a row names |
| `Rotation.ZeroFailedRequests` | scripts/tenant-rotate-db-creds.ts:14-31 | in every interleaving of spaced rotations with resolving and connecting processes, no connection is refused, given a grace that covers old credentials |
| `Rotation.SpacingSettles` | scripts/tenant-rotate-db-creds.ts:225-246 | enough spacing leaves nothing but the row's credential in use when the standby slot is rewritten |
| `Rotation.EachTenantGetsItsGrace` | scripts/tenant-rotate-db-creds.ts:190-219 | when the batch retires, every tenant's own commit and own bust are at least a whole grace ago |
| `Rotation.OtherSlotIsFree` | scripts/tenant-rotate-db-creds.ts:236-246 | on a settled tenant the standby slot may be rewritten without refusing anybody |
| `Rotation.ShortGraceRefuses` | scripts/tenant-rotate-db-creds.ts:69-75 | for every shorter grace there is a spaced run in which a request is refused |
| `Rotation.ZeroFailedIff` | scripts/tenant-rotate-db-creds.ts:14-31 | over all runs with rotations of one tenant spaced by `spacing`, no request is ever refused if and only if grace and spacing cover one request, plus a TTL when the bust may fail or a second process may refill the entry, and in the spacing also when the script may die |
| `Rotation.ShortSpacingRefuses` | scripts/tenant-rotate-db-creds.ts:225-246 | for every shorter spacing, whatever the grace, there is a run that re-issues a password a request still holds |
| `RotationRun.Operator.RotateOne` | scripts/tenant-rotate-db-creds.ts:225-294 | a tenant either reaches the standby slot with a working password and its old slot intact, or stays on a slot that was not touched |
| `RotationRun.Operator.RotateAll` | scripts/tenant-rotate-db-creds.ts:175-189 | one tenant's failure changes no other tenant; every failure is counted once |
| `RotationRun.Operator.RetireAll` | scripts/tenant-rotate-db-creds.ts:203-219 | exactly the slots moved off are disabled; every failure is counted once |
| `RotationRun.Operator.RotateCredentials` | scripts/tenant-rotate-db-creds.ts:175-222 | what a whole run leaves of every target, for every combination of failures, whatever others do in between |
| `RotationRun.OutcomeIs` | scripts/tenant-rotate-db-creds.ts:225-294 | the same outcome on the two roles themselves: a tenant without a row goes to slot a, one on a to b, one on b to a, with a password that logs in; the slot it left is closed exactly when retiring was asked for and succeeded; a failed one keeps its row and the role in use |
| `RotationRun.FailuresAre` | scripts/tenant-rotate-db-creds.ts:175-222 | the failures of a run are the number of targets not rotated, plus the number of those moved whose old slot was not retired |
| `DropSource.LiveDatabaseSurvives` | scripts/tenant-relocate.ts:452-521 | over any history of relocations that get anywhere and drops with recorded or explicit source, the database the control plane names exists and its server keeps the tenant's roles |
| `DropSource.DropIsExact` | scripts/tenant-relocate.ts:485-521 | a drop removes this tenant's copy and roles on the resolved source and nothing else, and that is not the live server |
| `DropSource.DropHappensIff` | scripts/tenant-relocate.ts:430-500 | which of the three refusals or the drop it is: no source; the same host with the same port, 5432 when omitted, or the live database of the tenant's name; not confirmed; and otherwise that database on that server is dropped |
| `DropSource.CleanUpAfterRelocation` | scripts/tenant-relocate.ts:464-483 | the recorded source is dropped exactly when the move changed host names; a move between two ports of one host is refused |
| `DropSource.DefaultPortIsTheSameServer` | scripts/tenant-relocate.ts:688-699 | an omitted port and 5432 are the same server |
| `DropSource.ControlPlane.DropSource` | scripts/tenant-relocate.ts:419-521 | the guard in the source's order decides as specified, and the tenant stays reachable |
| `OnlineScript.ReadSections` | scripts/_lib/online-track.ts:70-96 | the line loop with its flush computes the sections of a recursive definition, empty bodies left out |
| `OnlineScript.PreludeIsDropped` | scripts/_lib/online-track.ts:84-96 | lines before the first marker are in no step |
| `OnlineScript.SectionIsRead` | scripts/_lib/online-track.ts:75-97 | a marker and the lines up to the next one are one step with its name, flag and lines, exactly when some line is not blank |
| `OnlineScript.ParseOnlineScript` | scripts/_lib/online-track.ts:70-116 | it accepts exactly the texts that have a step and whose step names are distinct |
| `OnlineScript.ParsedCursorsAreExact` | scripts/_lib/online-track.ts:104-114 | in an accepted script a recorded cursor resumes just after its own step |
| `OnlineTrack.CrashResumeIsACleanRun` | scripts/_lib/online-track.ts:145-245 | for any crashes and reruns, once a script is finished the data is what uninterrupted runs leave, when each step at the data it meets gives the same however often it was executed and not recorded |
| `OnlineTrack.WellWrittenIsRobust` | scripts/_lib/online-track.ts:138-144 | idempotent plain steps, and repeated ones that settle within `maxPasses` and change nothing when they report no rows, are of that kind |
| `OnlineTrack.CleanRunFinishes` | scripts/_lib/online-track.ts:145-245 | some number of statements finishes any track, with the clean data and the barrier down |
| `OnlineTrack.AnyFinishIsTheCleanRun` | scripts/_lib/online-track.ts:138-144 | any finish after any crashes leaves the data of that uninterrupted run, for steps of the same kind |
| `OnlineTrack.RecordsAreCleanIff` | scripts/_lib/online-track.ts:199-225 | for every track with distinct names, without conditions on its steps: over all crash histories each recorded step carries the data of an uninterrupted run, if and only if each step at the data it meets gives the same however often it was executed and not recorded |
| `OnlineTrack.RobustIffWellWritten` | scripts/_lib/online-track.ts:199-217 | with `maxPasses` positive, and repeated steps that report rows exactly when they change data, that holds if and only if plain steps are idempotent and repeated ones settle |
| `OnlineTrack.StepsRunInTurn` | scripts/_lib/online-track.ts:138-144 | no step is executed before every earlier step, of its script and of earlier ones, has been recorded |
| `OnlineTrack.BarrierSafety` | scripts/_lib/online-track.ts:163-171 | a script that has executed a step and is unfinished holds the barrier, and no other script is unfinished |
| `OnlineTrack.AtMostOneUnfinished` | scripts/_lib/online-track.ts:163-171 | at any time, after any crashes, at most one script is started and unfinished, whether or not a step has run |
| `OnlineTrack.FinishedForGood` | scripts/_lib/online-track.ts:158-167 | reruns of a finished track change nothing |
| `OnlineTrack.BarrierCanStick` | scripts/_lib/online-track.ts:233-242 | a process that stops between the two last writes leaves the barrier up through every rerun |
| `OnlineTrack.BarrierClearsIff` | scripts/_lib/online-track.ts:233-242 | with every script finished, the barrier is down if and only if some process lowered it after the last one |
| `OnlineTrack.StuckBarrierIsReached` | scripts/_lib/online-track.ts:233-242 | every track has a run that ends like that, finished and barred for good |
| `OnlineTrack.UnknownCursorSkipsEverything` | scripts/_lib/online-track.ts:185-197 | a cursor that names no step finishes the script without running any |
| `OnlineTrack.SkipsEverythingIff` | scripts/_lib/online-track.ts:185-197 | a recorded cursor skips the whole script exactly when no step but the last has its name |
| `OnlineTrack.RepeatIsCrashProofIff` | scripts/_lib/online-track.ts:199-212 | the same of the final data, for a script of one repeated step, with `maxPasses` positive and row counts that tell whether the data changed |
| `OnlineTrack.TenantDb.RunPassesOf` | scripts/_lib/online-track.ts:199-212 | the pass loop, cut off anywhere, leaves what as many statements of the machine leave; when it ends `rowsDone` has grown by exactly the rows of its passes, and nothing else of the ledger has changed |
| `OnlineTrack.TenantDb.RunOnlineScript` | scripts/_lib/online-track.ts:145-245 | the runner refines the machine statement by statement and its counts are the steps and rows of this run; a run that completes leaves the barrier down, and exactly one row changed: finished, at the last step, one attempt more, `rowsDone` more by the rows of its repeated passes, no error; of a script already complete it changes nothing |
| `OnlineTrack.TenantDb.RunScripts` | scripts/tenant-online.ts:97-144 | so does the driver's loop over a tenant's scripts |
| `OnlineLedger.RowsDoneNeverFalls` | scripts/_lib/online-track.ts:45-47 | over all crashes and reruns `rowsDone` only climbs |
| `OnlineLedger.RowsAreConserved` | scripts/_lib/online-track.ts:197-210 | over all crashes and reruns every row a repeated step reported is in `rowsDone`, or about to be recorded, or of a pass after which the process stopped |
| `OnlineLedger.RowsDoneIsNeverTooMuch` | scripts/_lib/online-track.ts:202-208 | so the ledger never claims a row that no pass reported |
| `OnlineLedger.ErrorIsRecorded` | scripts/_lib/online-track.ts:224-232 | an error inside the steps, after any history, is left in the row of the unfinished script, and nothing else of the database changes |
| `OnlineLedger.FinishedMeansNoError` | scripts/_lib/online-track.ts:234-239 | after any history a script whose end is on record has no error on record |
| `OnlineLedger.DrainStopsAtTheFirstZero` | scripts/_lib/online-track.ts:197-210 | a repeated step is executed until the first execution that reports no rows, or as often as allowed when none does |
| `FanOut.EachIsTakenOnce` | scripts/tenant-migrate.ts:249-270 | in every interleaving of N workers tenants leave the queue once and in order, `migrateOne` runs at most once for each, and never behind a barrier without force |
| `FanOut.WithoutInOrder` | scripts/tenant-migrate.ts:244-244 | leaving tenants out of a plan keeps the others where they are |
| `FanOut.TerminalIsForGood` | scripts/tenant-migrate.ts:341-351 | a terminal status never changes |
| `FanOut.ClosedIsComplete` | scripts/tenant-migrate.ts:249-313 | when the run closes every queued tenant has one terminal status, skipped exactly when barred, and was migrated exactly otherwise |
| `FanOut.CountsAddUp` | scripts/tenant-migrate.ts:244-324 | the three counters are the rows of the ledger, and sum to the planned count if and only if everything carried over as ok is in the plan |
| `FanOut.PoolTerminates` | scripts/tenant-migrate.ts:249-313 | no interleaving of any number of workers has more than 4 steps for each queued tenant, one for each worker, and one to close |
| `FanOut.PoolNeverSticks` | scripts/tenant-migrate.ts:249-314 | from every state a live process reaches, going on leads to a closed run |
| `FanOut.ResumeQueue` | scripts/tenant-migrate.ts:180-196 | a resume queues exactly the selected tenants of the prior ledger that are not ok |
| `FanOut.ResumeCovers` | scripts/tenant-migrate.ts:180-196 | whatever the prior run died of, no tenant it recorded ok is migrated again, and every other one still selected is attempted or barred, once |
| `FanOut.ResumeCountsAddUp` | scripts/tenant-migrate.ts:188-247 | a resume's counts add up if and only if its selection still has every tenant already ok |
| `FanOut.SecondResumeForgets` | scripts/tenant-migrate.ts:232-244 | a tenant ok in the first run is queued by a resume of its resume if and only if it is selected both times |
| `FanOut.NoWorkersNoMigration` | scripts/tenant-migrate.ts:146-146 | without workers a run closes with every queued tenant still planned |
| `FanOut.ClosedIsCompleteIff` | scripts/tenant-migrate.ts:146-314 | with anything queued, every closed run has brought every row to a terminal status if and only if the concurrency flag is a number |
| `FanOut.Workers` | scripts/tenant-migrate.ts:146-146 | the clamp: 1 to 16 stay, anything less is 1, anything more 16, and there is no worker exactly for a flag that is no number |
| `FanOut.MigrationRun.MigrateNext` | scripts/tenant-migrate.ts:250-311 | one turn of a worker's loop takes the head of the queue to its terminal row, and is a piece of a history of the pool |
| `FanOut.MigrationRun.MigrateAll` | scripts/tenant-migrate.ts:244-314 | the default single worker leaves the stated row for every tenant of the plan, as a closed run of the pool |
| `SchemaCutover.CascadeIsReachability` | scripts/tenant-upgrade-v2.ts:699-713 | CASCADE deletes exactly what a chain of dependencies ties to the schema |
| `SchemaCutover.OnlyExtensionsCross` | scripts/tenant-upgrade-v2.ts:699-713 | when nothing outside a schema uses its objects, an outside object is deleted exactly when a chain ties it to an extension in it |
| `SchemaCutover.ArchiveDropIsExactIff` | scripts/tenant-upgrade-v2.ts:712-724 | after the cutover and any 2.0 work, dropping the archive deletes just the 1.0 objects and no extension if and only if no other object uses a 1.0 one |
| `SchemaCutover.UnmovedExtensionsTakeTwoZeroAlong` | scripts/tenant-upgrade-v2.ts:699-713 | without the moves a 2.0 object survives the drop if and only if no chain ties it to an extension |
| `SchemaCutover.UndoInvertsCutoverIff` | scripts/tenant-rollback-v2.ts:114-121 | homecoming, drop and rename restore exactly the 1.0 database, whatever 2.0 wrote, if and only if every extension was in `public` and no outside object uses a 2.0 one |
| `SchemaCutover.RollBackRestoresIff` | scripts/tenant-rollback-v2.ts:90-149 | when the whole rollback commits that database, in terms of its shape check and its final checks |
| `SchemaCutover.RollBackCommitsIff` | scripts/tenant-rollback-v2.ts:90-149 | for every catalogue: a rollback commits what undoing gives exactly when `public` has the table marc_records and the archive books, and what undoing gives has, in `public`, the column members.email, four indexes named `…trgm` and citext, and six extensions besides plpgsql |
| `SchemaCutover.ExtensionChecksIff` | scripts/tenant-rollback-v2.ts:136-142 | the check on citext always passes; the one on the extensions passes exactly when every other one but plpgsql is in the 2.0 schema |
| `SchemaCutover.LastWorkStands` | scripts/tenant-rollback-v2.ts:79-84 | work inside a schema decides what is in it, whatever was there before |
| `SchemaCutover.RollBackLosesExactly` | scripts/tenant-rollback-v2.ts:114-149 | a committed rollback loses exactly the objects a chain ties to a 2.0 object, and no extension |
| `SchemaCutover.SecondRollBackIsRefused` | scripts/tenant-rollback-v2.ts:38-44 | a second rollback is refused, whatever was done inside a schema since |
| `SchemaCutover.CutoversAndRollbacksAlternate` | scripts/tenant-rollback-v2.ts:88-109 | over any history of cutovers, rollbacks, provisioning and work on a database that starts without an archive, committed or refused, cutovers and rollbacks commit alternately |
| `SchemaCutover.RollBackNeedsACutover` | scripts/tenant-rollback-v2.ts:88-109 | over any such history a rollback is refused whenever no committed cutover is left to undo, and a cutover whenever one is |
| `SchemaCutover.RecipeLosesExtensionDependents` | scripts/tenant-rollback-v2.ts:5-29 | the two-statement recipe keeps a 1.0 object if and only if it is tied to no extension, and loses every extension but plpgsql |
| `SchemaExample.LibraryComesBack` | scripts/tenant-rollback-v2.ts:34-36 | a library with the e-mail column, four trigram indexes and six extensions is cut over, rolled back, and restored whole |
| `SchemaExample.LibraryRollsBackIff` | scripts/tenant-rollback-v2.ts:123-149 | whichever 1.0 objects use the 2.0 table, the library is rolled back exactly when the e-mail column, the four indexes and their two tables do not; one lost index or the lost column is refused |
| `SchemaExample.SeventhExtensionIsRefused` | scripts/tenant-rollback-v2.ts:136-147 | with one more extension anywhere but in the 2.0 schema, the library that came back whole is refused |
| `SchemaExample.LossGoesUnnoticed` | scripts/tenant-rollback-v2.ts:123-147 | one 1.0 object that uses a 2.0 table is gone after a rollback that all four checks let through |
| `SchemaCutover.Database.MoveExtensions` | scripts/tenant-upgrade-v2.ts:721-723 | the loop over the extensions, cut off anywhere |
| `SchemaCutover.Database.CutOverTenant` | scripts/tenant-upgrade-v2.ts:425-802 | the database ends as it began or fully promoted, and exactly when it is which; a clone commits too |
| `SchemaCutover.Database.RollBackTenant` | scripts/tenant-rollback-v2.ts:77-149 | likewise for the rollback; and whatever it commits has, in `public`, the column members.email, four indexes named `…trgm` and citext, and six extensions besides plpgsql |
| `SqlScan.ScrubIdempotent` | scripts/_lib/sql-scan.ts:44-138 | scrubbing its own output changes nothing, for every text |
| `SqlScan.ScrubIsClean` | scripts/_lib/sql-scan.ts:44-138 | scrubbed text has nothing left to blank at any depth of dollar quoting |
| `SqlScan.CleanIffFixed` | scripts/_lib/sql-scan.ts:44-138 | the texts with nothing to blank are exactly the fixed points |
| `SqlScan.ScrubLeavesNoOpeners` | scripts/_lib/sql-scan.ts:44-138 | no comment mark and no string quote is left outside quoted identifiers, at any depth |
| `SqlScan.ScrubKeepsLines` | scripts/_lib/sql-scan.ts:44-145 | length, newlines and the line number of every offset are those of the original |
| `SqlScan.LineAt` | scripts/_lib/sql-scan.ts:140-145 | the counting loop gives one more than the newlines before the offset |
| `SqlScan.ScrubSql` | scripts/_lib/sql-scan.ts:44-138 | the array-filling loop with its recursion computes the recursive lexer's text |
| `SqlScan.ScrubAt` | scripts/_lib/sql-scan.ts:55-134 | one turn of the loop writes one token and nothing else |
| `SqlScan.SkipBlock` | scripts/_lib/sql-scan.ts:66-84 | the nested-comment loop stops where the recursive definition does, or at the end |
| `SqlScan.SkipLiteral` | scripts/_lib/sql-scan.ts:107-124 | likewise for a literal with doubled quotes |
| `SqlGrammar.TagIff` | scripts/_lib/sql-scan.ts:42-42 | a text starts with a dollar tag exactly when it is a dollar, nothing or an identifier, and a dollar |
| `SqlGrammar.TagIsRead` | scripts/_lib/sql-scan.ts:42-42 | and the tag ends at that second dollar, whatever follows |
| `SqlGrammar.DollarQuoted` | scripts/_lib/sql-scan.ts:86-102 | `tag body tag` keeps its tags, unnamed ones too, its body is scrubbed as a text of its own, and scrubbing goes on after it |
| `SqlGrammar.DollarUnclosed` | scripts/_lib/sql-scan.ts:86-102 | a tag not found again has the rest of the text as its body |
| `SqlGrammar.LineCommentIsBlanked` | scripts/_lib/sql-scan.ts:56-64 | `--` and what follows it up to the end of the line become spaces |
| `SqlGrammar.BlockCommentIsBlanked` | scripts/_lib/sql-scan.ts:66-84 | a block comment with any comments nested in it becomes spaces, but for its newlines |
| `SqlGrammar.OpenBlockCommentIsBlanked` | scripts/_lib/sql-scan.ts:66-84 | one that is never closed takes the rest of the text |
| `SqlGrammar.LiteralIsBlanked` | scripts/_lib/sql-scan.ts:107-124 | a literal of any value, its quotes doubled, becomes spaces, but for its newlines |
| `SqlGrammar.OpenLiteralIsBlanked` | scripts/_lib/sql-scan.ts:107-124 | one that is never closed takes the rest of the text |
| `SqlGrammar.QuotedIdentifierIsKept` | scripts/_lib/sql-scan.ts:55-134 | a quoted identifier is kept, whatever stands in it |
| `SqlGrammar.OtherCharacterIsKept` | scripts/_lib/sql-scan.ts:55-134 | so is every character that starts none of these |
| `MigrationSafety.CloseIsUnique` | scripts/check-migration-safety.ts:210-221 | at most one place first returns the depth to zero |
| `MigrationSafety.EndIsUnique` | scripts/check-migration-safety.ts:195-209 | at most one place can end a DEFAULT expression |
| `MigrationSafety.NoStrayClose` | scripts/check-migration-safety.ts:195-209 | a DEFAULT expression closes nothing it did not open |
| `MigrationSafety.ParenEnd` | scripts/check-migration-safety.ts:210-221 | the span ends just after that place, or at the end of the text when there is none |
| `MigrationSafety.ExpressionEnd` | scripts/check-migration-safety.ts:195-209 | the span ends at the first comma or close at depth zero, or at the end of the text |
| `MigrationSafety.PersistedExpressions` | scripts/check-migration-safety.ts:180-225 | every match gets its one span, in order |
| `SpanGrammar.ParenthesisSpan` | scripts/check-migration-safety.ts:180-225 | after a match that ends in a parenthesis the span covers the match and a balanced text with its closing parenthesis, and there is no other span |
| `SpanGrammar.OpenParenthesisSpan` | scripts/check-migration-safety.ts:210-221 | or the rest of the text, when nothing closes it |
| `SpanGrammar.ExpressionSpan` | scripts/check-migration-safety.ts:195-209 | after any other match it covers a text without a comma or a closing parenthesis of its own level, up to one of these or the end |
| `MigrationSafety.SpanLinesAreOriginal` | scripts/check-migration-safety.ts:227-233 | a span's line in the scrubbed text is its line in the file |
| `AlertComments.StripIdempotent` | scripts/check-alerts.ts:133-209 | stripping twice is stripping once, although text is deleted: joining never makes an opener |
| `AlertComments.StripKeepsLiteralsAndLines` | scripts/check-alerts.ts:128-209 | the string literals are the same in the same order, and so is the number of newlines |
| `AlertComments.LexIsLossless` | scripts/check-alerts.ts:140-193 | the lexemes spell the input |
| `AlertComments.Relex` | scripts/check-alerts.ts:140-193 | lexing what is left gives back the lexemes that were left |
| `AlertComments.StripComments` | scripts/check-alerts.ts:133-209 | the mode automaton computes that text, and rejects exactly what the lexer rejects |
| `CommentGrammar.LineCommentGoes` | scripts/check-alerts.ts:140-209 | `//` and what follows it goes, and its newline stays; a text that ends in one is rejected |
| `CommentGrammar.BlockCommentGoes` | scripts/check-alerts.ts:140-209 | a block comment, whatever stands in it, leaves its newlines and nothing else |
| `CommentGrammar.OpenBlockIsRejected` | scripts/check-alerts.ts:195-209 | a text that ends inside one is rejected |
| `CommentGrammar.LiteralIsKept` | scripts/check-alerts.ts:140-193 | a literal of any of the three kinds, with escapes and comment marks in it, is kept as it is |
| `CommentGrammar.OpenLiteralIsRejected` | scripts/check-alerts.ts:195-209 | a text that ends inside one is rejected |
| `CommentGrammar.OtherCharacterIsKept` | scripts/check-alerts.ts:140-193 | every character that starts none of these is kept |
| `CommentGrammar.NothingToStrip` | scripts/check-alerts.ts:133-209 | a text without quotes and comment marks is returned unchanged |
| `CommentGrammar.StripLeavesNoOpeners` | scripts/check-alerts.ts:133-209 | in a stripped text no `//` and no `/*` stands outside a literal |
| `EnvFile.GetAfterSet` | scripts/secrets.ts:558-619 | a value the printer accepts is read back, and every other key reads as before, with duplicates and exports |
| `EnvFile.SerializedParses` | scripts/secrets.ts:525-538 | barewords and quoted values parse to themselves |
| `EnvFile.CommentIsCutOff` | scripts/secrets.ts:531-537 | an unquoted value ends before the first place where a comment can start |
| `EnvFile.ReadsAsShellIff` | scripts/secrets.ts:525-538 | an unquoted value is read without its comment if and only if something comes before the comment |
| `EnvFile.LoneCommentIsTheValue` | scripts/secrets.ts:531-537 | an instance: a comment with nothing before it is read as the value |
| `EnvFile.LoadAfterSaveIff` | scripts/secrets.ts:540-632 | loading what was saved gives every line back if and only if there is one |
| `EnvFile.SaveAfterLoad` | scripts/secrets.ts:540-632 | saving what was loaded gives the text back, with a final newline |
| `EnvFile.KeyOfWritten` | scripts/secrets.ts:549-551 | a line written for a name defines that name, even `export` |
| `EnvFile.SetSurvivesTheFile` | scripts/secrets.ts:540-632 | set, save, load, get returns the value and leaves every other key |
| `EnvFile.GeneratedIsAccepted` | scripts/secrets.ts:636-648 | what the generators make can always be stored |
| `EnvFile.EnvModel.GetValue` | scripts/secrets.ts:558-567 | the scan from the end reads the last definition |
| `EnvFile.EnvModel.SetValue` | scripts/secrets.ts:598-615 | the last definition is replaced or one is appended; a refused value changes nothing |
| `EnvFile.EnvModel.Save` | scripts/secrets.ts:616-632 | the joining loop writes every line and one more newline, and loading that gives back every non-empty model |
| `EnvFile.EnvModel.Init` | scripts/secrets.ts:1049-1058 | a key that has a value keeps it, every missing generated key gets its secret, no other key changes |
| `EnvGrammar.EscapedIsReadBack` | scripts/secrets.ts:525-530 | every value between double quotes, with a backslash before each quote, backslash, dollar and backtick, is read back |
| `EnvGrammar.DoubleQuotedIsUndone` | scripts/secrets.ts:525-530 | and a backslash before any other character, or before the closing quote, stays |
| `EnvGrammar.SingleQuotedIsVerbatim` | scripts/secrets.ts:525-527 | every text between single quotes is read as it is |
| `EnvGrammar.SurroundingSpaceIsIgnored` | scripts/secrets.ts:525-526 | white space around a value is no part of it |
| `EnvGrammar.TrailingCommentIsDropped` | scripts/secrets.ts:531-537 | nor is a comment after white space, of an unquoted value |
| `EnvGrammar.KeyIff` | scripts/secrets.ts:540-556 | a line defines a name exactly when it is the name and `=`, or `export`, white space, the name and `=`, with white space around the name |
| `EnvGrammar.LastDefinitionIsRead` | scripts/secrets.ts:558-567 | of several definitions the last one is read |
| `EnvGrammar.RefusedIff` | scripts/secrets.ts:574-596 | a value is refused exactly when it holds a single quote or a character below 32 |
| `EnvGrammar.WrittenAs` | scripts/secrets.ts:569-596 | an accepted value is written bare exactly when all its characters are of the listed ones, and else between single quotes |
| `EnvGrammar.OneLineIsWritten` | scripts/secrets.ts:598-615 | setting a key replaces its last line, or adds one at the end, and touches no other |
| `EnvGrammar.SecretIsTheFirst` | scripts/secrets.ts:1049-1058 | the secret a key gets is that of its first generated definition |
| `ShellLimits.PrintsAreBounded` | apps/desktop/src/main.ts:60-66 | no window of a minute holds more than 30 prints |
| `ShellLimits.ReloadsAreBounded` | apps/desktop/src/main.ts:54-58 | no window of a minute holds more than 3 automatic reloads, although refused crashes are remembered |
| `ShellLimits.PrintsTakeTheirTime` | apps/desktop/src/main.ts:60-66 | any 31 prints in a row take at least a minute |
| `ShellLimits.ReloadsTakeTheirTime` | apps/desktop/src/main.ts:54-58 | any 4 reloads in a row take at least a minute |
| `ShellLimits.PrintRefusedIff` | apps/desktop/src/main.ts:535-538 | a print is let through, or refused exactly when the 30th last printed is less than 60 000 ms old |
| `ShellLimits.ReloadRefusedIff` | apps/desktop/src/main.ts:316-323 | a crash is followed by a reload, or not exactly when the third last crash, reloaded or not, is less than 60 000 ms old |
| `ShellLimits.Shell.Print` | apps/desktop/src/main.ts:532-545 | the handler's list decides as the whole history does |
| `ShellLimits.Shell.RenderProcessGone` | apps/desktop/src/main.ts:314-324 | likewise for crashes |

## Left out

- Relocation and rotation are proved on step relations, because other processes act between any two statements; `RelocationRun` and `RotationRun` tie the scripts' own control flow to them.
- Resolving an address and caching it is one step, and how long a resolved address may be used is a parameter (`life`, `hold`), as is how long a signalled backend may still commit (`linger`).
- ResolveKeeps: the resolver's in-process memo, kept for 5 s while Redis reads fail, is not part of the cache; `life` and `hold` include those 5 s.
- The read_only mode stops no request in `Relocation`: the proof rests on the database fence alone, which is weaker to assume. The 30 minutes after which a failed relocation's window ends by itself are not modelled.
- Postgres, Redis, Prisma, `pg_dump`, `pg_restore` and child processes are atomic effects that may fail; `CREATE INDEX CONCURRENTLY` leaving an invalid index is not part of this model.
- A step of an online script is a function on the data that reports a row count; statements inside one step are not modelled one by one.
- LiveDatabaseSurvives: two host names of one server are two servers: they are equal exactly when canonical host and port are, and letter case of host names is taken as given.
- DropHappensIff: the two refusals before the guard, of a database name of another pattern and of a source outside the local cluster, are not modelled.
- CutOverTenant: the copy-forward may do anything inside `lbr2`; what it copies, the SQL of the two verifiers (apart from the extension assertion) and the control plane's `schemaMajor` stamp are verdicts or left out.
- RollBackTenant: histories create no extension after the cutover (`SchemaExample.SeventhExtensionIsRefused` is a catalogue in which one was created); the shape check and the four final checks are modelled.
- PersistedExpressions: the four regular expressions are given as match positions.
- ParseOnlineScript: the step pattern is given as the kind of each line.
- StripComments: the `sh` mode is a one-line regular expression and is not modelled.
- RotateOne: a role dropped by hand, the grants and the connection limits are not modelled; retiring is one statement where the source issues two.
- MigrateAll: one worker only; any number of workers is covered by the theorems on `FanOut.Run`. Re-granting and the `tenant_schema_state` cache are not modelled.
- ReadsAsShellIff: the rest of a shell's syntax (words after the first, expansions, mixed quoting) is not modelled.
- Shell: a clock that goes back is not modelled; the handlers' contracts ask for one that does not.
- Strings are sequences of characters, where the source counts UTF-16 units.
- `storage-migrate.ts`, `tenant-create.ts` and the other checks are weaker versions of the protocols and lexers here.
