# Rekenraam: verified models

Rekenraam is a self-hosted bookkeeping server: a Go backend over one SQLite file, a web client, and Python and
TypeScript tooling around its releases and its API contract. This project models the parts of it whose correctness
depends on state, recursion, concurrency or exact arithmetic, and proves for every input, every run or every
reachable state what those parts are there for. Run `dafny verify dfyconfig.toml` in this directory to check it.

Each module follows one component. Code that changes things step by step is a class or a method with a loop, proved
against a specification that does not mention its steps; code made of expressions is functions; programs that
interleave are step relations over program counters.

## What is proved

**Offline maintenance** (`OfflineMaintenance`, `MaintenanceSafety`, `MaintenanceReports`, `MaintenanceEndings`). Any number
of `restore`, `recover-owner` and server processes run around one lock file. Every step may fail, any process may be killed at any
point, all of them interleave. In every run at most one process is between acquiring and releasing; files change only
under the lock; and *nothing committed is ever lost*: whatever the database contained at some moment is at every later
moment still at the start of the live database or of a pre-restore copy. Exit codes mean what they say. The commands also
get their work done: the ways an owner recovery or a server can end are exactly the listed ones, success with any flags
among them, and a restore can succeed and can fail with each of its sentences. The sentences are not always true; for each
of them the exact condition is proved, per run and over all runs.

**Contract resolution** (`ContractResolver`, `ContractMeaning`, `ContractTermination`, `ContractKeys`, `ContractOutcome`,
`ContractResult`, `JsonPointer`, `ValidatorCache`). `$ref` resolution across documents with a cache filled by the
recursion equals resolution that reads every file afresh, and yields what the documents mean by a big-step definition of
its own: where a reference leads as seen from the document it is in, what it is merged with and how. It gives a result if and only if no chain of references runs
into itself and every reference met on the way has a text, leads somewhere and, where it is merged with its siblings,
to something that `dict()` takes, which shows on the unresolved documents (`ContractKeys`); among documents with such
references it runs on for ever if and only if a chain is circular. Pointers decode as section 4 of RFC 6901 encodes
them. A resolved value contains no `$ref` under an exact condition on the documents, and then resolves to itself. The
second cache, keyed by object identity, always answers for the schema asked, and only because validators keep their
schema alive.

**Response lifecycle** (`ResponseLifecycle`, `JsonText`). For every finite handler run that returns or panics, the client
gets the status that starts the response, the headers set before it, and what each write sent, in order. The logged status
and byte count are the client's if and only if the first status was final and no reader panicked halfway through a copy. A
panic becomes a 500 exactly when nothing was written, the whole envelope or text of it; an archive download never mixes
with an error envelope; and the code and the message of every envelope read back, whatever characters they contain.

**Investment replay** (`ReplayClosure`). The worklist that selects positions to rebuild computes exactly the earliest date
at which any dated chain of transfers reaches a position.

**Exact money** (`Exact`, `Lots`). Sums across scales lose nothing, conversion rounds to the nearest value and treats
debits like credits, selling lots conserves units and cost basis exactly and in proportion, at the scales each disposal
itself carries, and shared-out proceeds add up to the amount.

**Recurrence** (`Calendar`, `DateWalk`, `Recurrence`). A schedule is usable exactly if it has what its frequency needs. Its
window holds exactly the dates of the rule, a statement about days of the civil calendar, each once, in order, up to its
end and its count; adjacent windows add up; nothing drifts after a short month.

**Release manifest** (`ReleaseManifest`), **forwarded addresses** (`ForwardedFor`), **money on the wire** (`Decimal`,
`MoneyCoefficient`), **attention summary** (`Attention`), **forecast queries** (`ForecastQuery`), **plan projections**
(`PlanProjections`), **TOTP dispenser** (`TotpDispenser`) and **timing reporter** (`TimingReporter`): each parser, printer,
scan or fold is characterised completely, with its inverse or its reference definition beside it.

## Promises that do not hold as stated

Each is kept as the code has it, with a concrete input and the exact condition under which the promise holds.

- The request log can differ from what the client got: a handler that starts with an informational status such as 103, or
  with one outside 100 to 999, or a reader that panics after part of its copy was sent (`LogCanBeWrong`, `LogIsTruthful`).
- Resolving a reference can bring a `$ref` key back: `dict()` turns a list of pairs into a mapping
  (`PairListBringsRefBack`, `ResolvedIsRefFreeIff`).
- What `assemble` writes can be refused by `verify_files`: the version pattern's `\d` admits digits outside ASCII, which
  the manifest's file names do not, and an archive that is a link is read but refused (`UnicodeVersionSlipsThrough`,
  `LinkSlipsThrough`, `AssembleAndVerify`).
- A restore verifies its backup as a database but copies one file. A backup with a log of its own is restored without
  it, and restoring from the file that a killed restore left under the temporary name truncates it and installs an empty
  file; both are reported as restored (`NotPlainGoesWrong`, `SuccessIsFalse`). Over a leftover log without a main file a
  restore can report an installed database that is not the backup (`StrayLogIsReplayed`). What is said about the live
  database is true in all runs if and only if none of this is the case (`LiveClaimsAreTrueIff`).
- A restore that fails after installing where there was no database names a directory with the previous database that
  never was (`EmptyDirectoryIsNamed`, `RestoreReportIsTrue`). All its sentences are true in all runs if and only if,
  besides a plain backup, a database is there and no other restore could verify a backup (`ReportsAreTrueIff`).
- Owner recovery with `--allow-no-backup` and `--backup-path` completes with the sentence that a verified backup was written
  to that path, and writes none (`ReachesRecovered`, `RecoverySentencesAreTrueIff`).
- The timing table misses operations named like a member every JavaScript object inherits, such as `constructor`
  (`InheritedNameIsMissed`, `TableIsExact`), and after an operation named `__proto__` one named `calls` or `duration_ms`
  costs the test its record (`ProtoCostsTheRecord`, `RecordIsLostIff`).
- A quoted amount with spaces inside the quotes is refused where the bare one is trimmed (`SpaceMatters`, `QuotedAndBareAgree`).

## Model

| member | source | states |
|---|---|---|
| OfflineMaintenance.InvAlways | backend/cmd/rekenraam/restore.go:149-210 | every state of every run keeps the invariant: who holds the lock, what the holder knows about the files at each step, what its log must look like |
| MaintenanceSafety.MutualExclusion | backend/cmd/rekenraam/restore.go:149-168 | two processes between acquire and release are the same process, and it holds the lock |
| MaintenanceSafety.FilesChangeOnlyUnderLock | backend/cmd/rekenraam/command.go:138-192 | any change to the database's files, by replacing, migrating or resetting, is made by the lock holder |
| MaintenanceSafety.LockIsNeverLeaked | backend/internal/lockfile/lockfile.go:20-89 | once every process has ended, however it ended, the lock is free |
| MaintenanceSafety.NothingCommittedIsLost | backend/internal/db/restore.go:180-276 | whatever the database contained once is later still at the start of the live database or of a pre-restore copy, through any interleaving and any crash |
| MaintenanceSafety.PreservedCopiesStay | backend/internal/db/restore.go:278-307 | a pre-restore copy is never overwritten by a later restore |
| MaintenanceSafety.RestoreReportIsTrue | backend/cmd/rekenraam/restore.go:168-209 | at release, in every run: what the report says about the live database is true if and only if it does not speak of a restored one or the backup was one plain file; the whole sentence if and only if, besides, it did not fail after installing where nothing was found |
| MaintenanceSafety.RecoveryEnds | backend/cmd/rekenraam/command.go:138-201 | on every exit of owner recovery: database closed before release; access reset only after a verified backup, unless none was wanted, migration and permissions in that order; exit 0 if and only if reset and release both succeeded; completion announced exactly when access was reset, truthfully about the backup except with a path given along with leave to go without |
| MaintenanceSafety.RestoreEnds | backend/cmd/rekenraam/restore.go:128-210 | a restore that acquired the lock attempted to release it; exit 0 if and only if the report is success and the lock was released cleanly after installing; exit 2 only before the lock was tried; the report speaks of an installed backup exactly if one was installed |
| MaintenanceReports.LiveClaimsAreTrueIff | backend/internal/db/restore.go:188-276 | from given files and commands: what a restore says about the live database is true in all runs if and only if its backup is one plain file and no log with content lies beside a missing main file |
| MaintenanceReports.NotPlainGoesWrong | backend/internal/db/restore.go:196-252 | a backup with a log of its own, or the file left under the temporary name, can be verified and reported restored while something else is installed |
| MaintenanceReports.SuccessIsFalse | backend/internal/db/restore.go:249-276 | the run that does so: verify, preserve, copy, install, sweep, success |
| MaintenanceReports.StrayLogIsReplayed | backend/internal/db/restore.go:259-273 | with a leftover log, a run that installs and then fails leaves a database that is not the backup it claims |
| MaintenanceReports.UnverifiableNeverInstalls | backend/internal/db/restore.go:200-210 | a restore whose backup can pass verification in no run never speaks of moved or restored files |
| MaintenanceReports.ReportsAreTrueIff | backend/cmd/rekenraam/restore.go:178-200 | every sentence of a restore is true in all runs if and only if its backup is one plain file, a main file is there and no other restore could verify a backup |
| MaintenanceReports.EmptyDirectoryIsNamed | backend/cmd/rekenraam/restore.go:184-186 | wherever no database is, some run of a restore ends in a false sentence about the previous one |
| MaintenanceReports.RecoverySentencesAreTrueIff | backend/cmd/rekenraam/command.go:194-200 | the completing sentence of owner recovery is true in all runs if and only if it was not given both --allow-no-backup and --backup-path |
| MaintenanceReports.ReachesRecovered | backend/internal/app/recovery.go:38-58 | whatever its flags, some run of an owner recovery backs up unless told not to, migrates, secures, resets and completes, naming a path if it was given one or made a backup; with both flags that names a backup never written |
| MaintenanceEndings.RecoveryEndsExactly | backend/cmd/rekenraam/command.go:138-201 | from any files and beside any other processes, the logs, codes and reports an owner recovery can exit with are exactly the listed ones: refused or locked out, failed to open, given up after any piece of its work, or all of it done, each with the lock released or not |
| MaintenanceEndings.RecoveryCanSucceed | backend/internal/app/recovery.go:38-58 | with any flags some run exits with 0, access reset, and a backup made if and only if it was not told to go without |
| MaintenanceEndings.ReachesServing | backend/internal/appruntime/runtime.go:77-98 | the server gets to serve from any files, and then any transactions can be committed |
| MaintenanceEndings.ServeEndsExactly | backend/internal/appruntime/runtime.go:67-98 | the logs and codes a server can exit with are exactly the listed ones |
| MaintenanceEndings.RestoreCanSucceed | backend/internal/db/restore.go:180-276 | wherever the backup can be verified some run installs it, removes log and index, keeps the previous database whole in a new directory, names that directory and exits with 0 |
| MaintenanceEndings.RestoreGivesUpSaying | backend/cmd/rekenraam/restore.go:168-200 | every step of a restore can fail, with exactly the sentence that how far it got calls for, untouched, moved to a directory, or installed, and exactly the files as they were but for a folded log or what a failing copy leaves |
| MaintenanceEndings.MovesThatFile | backend/internal/db/restore.go:222-248 | moving a file aside takes exactly that file, with its content, and no other |
| MaintenanceEndings.RestoreCanFailUntouched | backend/internal/db/restore.go:196-210 | some run fails with nothing changed |
| MaintenanceEndings.RestoreCanFailMoved | backend/internal/db/restore.go:222-248 | where a database is, some run fails with it moved whole to the named directory and nothing in its place |
| MaintenanceEndings.RestoreCanFailInstalled | backend/internal/db/restore.go:249-276 | some run fails with the backup under the real name and the previous database kept |
| ResponseLifecycle.LogIsTruthful | backend/internal/api/middleware.go:111-221 | logged status and bytes equal the client's if and only if the first status set was final and no copy was cut short by its reader's panic |
| ResponseLifecycle.LogCanBeWrong | backend/internal/api/middleware.go:187-221 | three concrete runs in which they differ |
| ResponseLifecycle.RecoveryNeverMixes | backend/internal/api/middleware.go:129-163 | what the client gets, told from the calls: the generated 500, whole and with its own headers, if and only if the handler panicked before touching the response; otherwise the status of the call that starts it, the headers set before that, and what every write and copy sent, in order |
| ResponseLifecycle.BodyFromStart | backend/internal/api/middleware.go:187-221 | the last of these, from any state before the response has started, for every sequence of calls |
| ResponseLifecycle.ServeRequest | backend/internal/api/server.go:51 | recorder over recovery over handler: the client gets what RecoveryNeverMixes says, and the recorder's status and bytes are the client's if and only if the run is loggable |
| ResponseLifecycle.ResponseRecorder.WriteHeader | backend/internal/api/middleware.go:187-194 | first status wins in the record, every call is passed on |
| ResponseLifecycle.ResponseRecorder.Write | backend/internal/api/middleware.go:196-204 | implicit 200, and the record grows by the bytes the connection took |
| ResponseLifecycle.ResponseRecorder.ReadFrom | backend/internal/api/middleware.go:206-221 | implicit 200, and the count is added unless the reader panics |
| ResponseLifecycle.ResponseRecorder.WriteInternalServerError | backend/internal/api/middleware.go:156-163 | on an untouched response: status 500, below /api/ the envelope as JSON, elsewhere the plain text without a Content-Length, as much of it as the peer takes |
| ResponseLifecycle.ArchiveWrites | backend/internal/api/exports.go:286-301 | after any non-empty sequence of writes the headers were attached once, before the first byte, and the body is the accepted bytes in order |
| ResponseLifecycle.DownloadIsAllOrError | backend/internal/api/exports.go:260-301 | archive headers with archive bytes only, or one JSON error, its envelope as far as the peer takes it, without download headers, for whatever the export service writes, returns or panics; headers attached at most once; log agrees |
| ResponseLifecycle.EnvelopeReadsBack | backend/internal/api/middleware.go:47-54 | an error envelope holds its code and its message, each in its own field, for all texts |
| ResponseLifecycle.ErrorIsReadable | backend/internal/api/middleware.go:37-54 | a client that takes all of an error response reads its code and message out of it |
| JsonText.StringRoundTrip | backend/internal/api/middleware.go:37-40 | a JSON string as the encoder escapes it reads back, by section 7 of RFC 8259, as the text it was written from, for all texts |
| ResponseLifecycle.DeferredHeaderWriter.Write | backend/internal/api/exports.go:295-301 | headers by the first write and by no other |
| ResponseLifecycle.ExportBundle | backend/internal/api/exports.go:237-284 | the handler ends in the specified state and its response is the archive or the error |
| ContractResolver.ContractLoader.Fetch | scripts/audit-api-contract.py:116-118 | a cached document is what its file holds |
| ContractResolver.ContractLoader.ResolveCached | scripts/audit-api-contract.py:104-127 | resolution through the shared, growing cache equals cacheless resolution, errors included |
| ContractResolver.ContractLoader.ReferenceCached | scripts/audit-api-contract.py:109-126 | the same for one reference and its siblings |
| ContractResolver.ContractLoader.LoadContract | scripts/audit-api-contract.py:101-129 | the loaded contract is the cacheless resolution of the specification file |
| ContractMeaning.TargetIsDirect | scripts/audit-api-contract.py:109-120 | a reference leads to a place if and only if it is local, the place is in the document its path names as seen from the referring document, or in that document itself without a path, inside the tree and present, at the end of a walk through nested mappings along the fragment |
| ContractMeaning.TargetErrors | scripts/audit-api-contract.py:109-120 | scheme, host or query, a document outside the tree, a missing document and a missing key each give their own error, and there is no other |
| ContractMeaning.CombineMerges | scripts/audit-api-contract.py:121-126 | beside nothing but description and summary the target is overlaid key by key, its keys in place and new ones after them; beside anything else the result is a mapping with the one key allOf holding the target and then the siblings |
| ContractMeaning.ResolvedMeans | scripts/audit-api-contract.py:104-127 | what resolution yields is what the value means: lists and mappings item by item, in order and under their own keys, scalars themselves, and a reference by what it leads to, resolved in its own document, merged with its siblings, resolved in theirs |
| ContractTermination.AcyclicTerminates | scripts/audit-api-contract.py:121-122 | with acyclic references, nesting as deep as there are links is enough |
| ContractTermination.MoreFuel | scripts/audit-api-contract.py:104-127 | an answer within some nesting bound is the answer within every larger one |
| ContractTermination.SuccessMeansAcyclic | scripts/audit-api-contract.py:121-122 | what resolves within any bound has no circular chain |
| ContractOutcome.ResolvesIffSoundAndAcyclic | scripts/audit-api-contract.py:104-127 | some bound gives a result if and only if the references are acyclic and every one met has a text, a target, and with descriptive siblings a target that dict() takes; all conditions on the documents |
| ContractOutcome.SoundDivergesIffCyclic | scripts/audit-api-contract.py:121-122 | where every reference met is sound, no bound gives an answer if and only if a chain runs into itself |
| ContractOutcome.MergeableKept | scripts/audit-api-contract.py:124-125 | whether dict() takes what a target resolved to shows on the unresolved target |
| ContractKeys.MappingKeysKept | scripts/audit-api-contract.py:122-127 | and so do the keys it then has, in order, through references to lists, texts and mappings |
| ContractKeys.PairKept | scripts/audit-api-contract.py:125 | an element of a merged list becomes the key told from the documents, with the resolved second item of a list or a text or leaf as value |
| ContractResult.ResolvedIsRefFree | scripts/audit-api-contract.py:104-129 | no `$ref` key at any depth of a resolved value, if no reference that resolution meets has only descriptive siblings and points at a list that dict() turns into one |
| ContractResult.ResolvedIsRefFreeIff | scripts/audit-api-contract.py:104-129 | a resolved value has no `$ref` key at any depth if and only if no such merge is visible in the documents, that is, not overridden by a sibling or a later pair |
| ContractResult.PairListBringsRefBack | scripts/audit-api-contract.py:125 | a concrete document where it does |
| ContractResult.CodesBecomeAMapping | scripts/audit-api-contract.py:125 | a list of two-letter texts becomes a mapping |
| ContractResult.RefFreeIsFixed | scripts/audit-api-contract.py:104-127 | a value without references resolves to itself anywhere, so resolving is idempotent |
| ContractResult.PointerReachesItsPath | scripts/audit-api-contract.py:119-120 | a fragment that encodes a list of keys leads to the value under exactly those keys |
| JsonPointer.TokenRoundTrip | scripts/audit-api-contract.py:120 | the two replacements undo the escaping of section 4 of RFC 6901 for every token |
| JsonPointer.PointerRoundTrip | scripts/audit-api-contract.py:119-120 | a pointer reads back as the token list it was written from |
| ValidatorCache.AnswersForTheSchemaAsked | scripts/audit-api-contract.py:132-141 | after any interleaving of allocating, dropping, collecting, mutating and asking, the validator returned is for the schema asked about |
| ValidatorCache.CachedContentIsChecked | scripts/audit-api-contract.py:136-140 | if no cached schema is mutated, each cached validator's schema passes its check as it now is |
| ValidatorCache.WithoutRetentionTheAnswerIsStale | scripts/audit-api-contract.py:136 | without retention there is a run in which the answer is for another schema |
| ReplayClosure.Visit | backend/internal/db/investment_replay_closure.go:70-76 | records only earlier dates, and queues exactly what it records |
| ReplayClosure.QueueSeeds | backend/internal/db/investment_replay_closure.go:77-82 | fails exactly for an invalid seed; otherwise covers every seed and claims nothing no chain supports |
| ReplayClosure.GroupBySource | backend/internal/db/investment_replay_closure.go:99-112 | for every position exactly the rows that leave it |
| ReplayClosure.FollowTransfers | backend/internal/db/investment_replay_closure.go:122-131 | one popped position's late enough transfers are all followed, dates only get earlier, and the measure shrinks if anything is queued |
| ReplayClosure.PopAndFollow | backend/internal/db/investment_replay_closure.go:121-132 | one round of the loop keeps the worklist invariant and shrinks the measure |
| ReplayClosure.Drain | backend/internal/db/investment_replay_closure.go:121-132 | the loop ends, in a fixed point, also on cyclic transfers |
| ReplayClosure.FixedPointIsComplete | backend/internal/db/investment_replay_closure.go:26-34 | at a fixed point no chain reaches a position earlier than recorded |
| ReplayClosure.Closure | backend/internal/db/investment_replay_closure.go:64-132 | refused exactly for a book or seed without a positive id or a date; otherwise every position gets the earliest date over all chains, each transfer entering its own destination at its source's cost currency, and no other position appears |
| ReplayClosure.EarliestAffectedIsUnique | backend/internal/db/investment_replay_closure.go:26-27 | there is only one such map, so row order and stack order do not matter |
| ReplayClosure.ClosureIsMonotone | backend/internal/db/investment_replay_closure.go:29-34 | more seeds or more transfers only add positions and move dates earlier |
| Exact.ScaledInt.Align | backend/internal/exact/scaled.go:87-99 | same amount at the deeper of the two scales |
| Exact.ScaledInt.Add | backend/internal/exact/scaled.go:101-113 | exact sum at the deeper scale |
| Exact.ScaledInt.AddAll | backend/internal/exact/scaled.go:101-113 | accumulating any list gives its exact sum at its deepest scale |
| Exact.TotalRestates | backend/internal/exact/scaled.go:87-99 | deepening a sum equals summing at the deeper scale |
| Exact.HalfUpIsNearest | backend/internal/exact/rate.go:63-68 | quotient and remainder test give the nearest integer, ties up in magnitude |
| Exact.ConversionIsNearest | backend/internal/exact/rate.go:17-74 | the converted amount is within half a unit of the exact quotient, whatever the four scales, and exactly half a unit off only away from zero |
| Exact.Convert | backend/internal/exact/rate.go:29-74 | refused exactly for a zero divisor or a negative scale, and otherwise the conversion |
| Exact.ConversionIsSymmetric | backend/internal/exact/rate.go:25-28 | converting the negated amount gives the negated result |
| Exact.Int64Bounds | backend/internal/db/investments.go:304-318 | the range of a 64-bit coefficient |
| Lots.DigitBounds | backend/internal/exact/coefficient.go:15 | a stored coefficient has at most 38 digits |
| Lots.LotIsConserved | backend/internal/db/investments.go:3204-3297 | units and basis taken plus units and basis left are the lot, each at the scale it is recorded with; basis leaves in proportion, truncated; an emptied lot keeps no basis; a disposal of unknown basis has none |
| Lots.TakeFrom | backend/internal/db/investments.go:1690-1711 | takes what is wanted or the whole lot, or refuses, for exactly the reason the lot has |
| Lots.ConsumeLots | backend/internal/db/investments.go:1685-1718 | lots are emptied in order, later ones untouched, units and known basis conserved exactly and proportionally; refused with an error if and only if the first lot reached that refuses does so with it, or all lots hold less than is wanted |
| Lots.SellInOrder | backend/internal/db/investments.go:1672-1719 | the same from the sale's own scale, across lots of different scales |
| Lots.PiecesReleaseTheWhole | backend/internal/db/investments.go:3224-3240 | however a lot is cut up and at whatever scales, the pieces release exactly the basis no longer held, in the end all of it |
| Lots.ChooseScale | backend/internal/db/investments.go:304-318 | the deepest scale at which the amount fits 64 bits, which always exists |
| Lots.Share | backend/internal/db/investments.go:319-345 | shares add up to the amount, have its sign, and all but the last are the exact proportion truncated |
| Lots.AllocateProceeds | backend/internal/db/investments.go:287-347 | refused exactly for malformed input; otherwise fair shares that each fit 64 bits, so the range error cannot occur |
| Calendar.NextMonth | backend/internal/recur/schedule.go:334-337 | each month begins where the previous one ended |
| Calendar.MonthLengths | backend/internal/recur/schedule.go:334-337 | the lengths of the months, with the Gregorian leap years |
| Calendar.Epoch | backend/internal/recur/schedule.go:334-337 | 1 January 1970 is day 719163, a Thursday |
| Calendar.PastTheCalendar | backend/internal/recur/schedule.go:241-245 | a day's year is past 9999 exactly when the day is past the last one |
| DateWalk.Collect | backend/internal/recur/schedule.go:167-183 | exactly the series' dates in the window, or incomplete exactly when they exceed the cap |
| DateWalk.FirstAfter | backend/internal/recur/schedule.go:198-209 | the least series date after the cutoff, or none |
| DateWalk.DatesAreScheduled | backend/internal/recur/schedule.go:221-257 | a date is in the window's list if and only if it is scheduled and in the window |
| DateWalk.CountUpTo | backend/internal/recur/schedule.go:221-257 | occurrence i of a rising series through exactly the dates of a rule is the one with i such dates before it |
| Recurrence.ValidateIffSensible | backend/internal/recur/schedule.go:87-147 | a schedule is accepted if and only if it has all its frequency needs, and an error names something it lacks |
| Recurrence.SeriesAscends | backend/internal/recur/schedule.go:259-332 | later occurrences are later days, also across clamped months, so none repeats |
| Recurrence.SeriesIsTheRule | backend/internal/recur/schedule.go:276-332 | the series enumerates exactly the dates that are not before the anchor, on the schedule's day of the week or civil day of the month, the last one of a shorter month, and a whole number of intervals of days, weeks, months or years from it |
| Recurrence.SeriesIsTheSchedule | backend/internal/recur/schedule.go:221-257 | and with end and count exactly the dates of the rule up to the end date and the last calendar day, and among as many first ones as the count |
| Recurrence.OccurrencesAreCounted | backend/internal/recur/schedule.go:221-257 | occurrence i is the date of the rule with exactly i before it |
| Recurrence.WindowIsTheRule | backend/internal/recur/schedule.go:149-257 | a window holds exactly the dates of the schedule in it, ascending |
| Recurrence.SplitWindow | backend/internal/recur/schedule.go:32-35 | adjacent windows concatenate to the wide one |
| Recurrence.Occurrences | backend/internal/recur/schedule.go:151-184 | all the dates of the schedule in the window, ascending, or the first validation error, or too wide exactly where there are more than 4000 |
| Recurrence.Next | backend/internal/recur/schedule.go:186-210 | the schedule's earliest date strictly after a given one, or none exactly where it has none |
| ReleaseManifest.LineRoundTrip | scripts/release-artifacts.py:154-162 | a printed line reads back exactly when its name is safe |
| ReleaseManifest.LineIff | scripts/release-artifacts.py:161-165 | a line is read as a digest and a name exactly if it is 64 hexadecimal digits, two blanks and that safe name |
| ReleaseManifest.LinesAreCut | scripts/release-artifacts.py:161 | any text is cut into lines without breaks at every break, a carriage return with its line feed being one, and nothing is left over |
| ReleaseManifest.PrintedLines | scripts/release-artifacts.py:154-161 | splitting a printed manifest gives its lines back, one per file |
| ReleaseManifest.VerifyFiles | scripts/release-artifacts.py:158-174 | accepted if and only if the manifest is well formed, non-empty, without duplicates or reserved names, every listed file is regular with its digest, and every download is listed |
| ReleaseManifest.PrintedManifestAcceptedIff | scripts/release-artifacts.py:153-174 | a printed manifest is accepted if and only if there is a file and all are regular with safe, unreserved names |
| ReleaseManifest.ManifestPinsTheFiles | scripts/release-artifacts.py:158-174 | two directories accepted under one manifest hold the same names and digests |
| ReleaseManifest.CandidateIsPlain | scripts/release-artifacts.py:16-24 | a candidate version is one line, and safe in a file name exactly when it is ASCII |
| ReleaseManifest.MatchesIffCandidate | scripts/release-artifacts.py:16-24 | the version check accepts exactly v, three numbers with dots, -rc. and a number, none with a leading zero |
| ReleaseManifest.ReleaseDirectory.Assemble | scripts/release-artifacts.py:122-155 | succeeds exactly for a candidate version and the two archives of the checked-out source; then the directory has the notes and a manifest of all three files, otherwise nothing changed |
| ReleaseManifest.AssembledIsVerifiedIff | scripts/release-artifacts.py:122-174 | what assemble leaves passes verification if and only if the version is ASCII and both archives are regular files |
| ReleaseManifest.AssembleAndVerify | scripts/release-artifacts.py:122-174 | end to end: when assembling succeeds, verification succeeds if and only if the version is ASCII and both archives are regular files |
| ReleaseManifest.UnicodeVersionSlipsThrough | scripts/release-artifacts.py:16-24 | a version that is accepted by assemble and whose release verification refuses, whatever the archives |
| ReleaseManifest.LinkSlipsThrough | scripts/release-artifacts.py:153-171 | a release with a linked archive is refused, under any version |
| Decimal.FormatRoundTrip | backend/internal/api/money_coefficient.go:15-17 | every integer in range is read back from its text |
| Decimal.CanonicalIffReformats | backend/internal/api/money_coefficient.go:29-32 | a readable text equals its reformatting if and only if it is canonical |
| Decimal.ParseIntIff | backend/internal/api/money_coefficient.go:25-28 | a text is read as an integer if and only if it is digits with at most one sign that stand for it by their places, and it fits the width |
| Decimal.FormatStandsFor | backend/internal/api/money_coefficient.go:15-17 | the text of every integer stands for it by its places |
| MoneyCoefficient.Coefficient.Unmarshal | backend/internal/api/money_coefficient.go:19-35 | accepted exactly for the canonical text of a 64-bit integer, which becomes the value; a refusal changes nothing |
| MoneyCoefficient.MoneyRoundTrip | backend/internal/api/money_coefficient.go:15-35 | every 64-bit amount survives quoted and bare, and no other amount has its text |
| MoneyCoefficient.QuotedAndBareAgree | backend/internal/api/money_coefficient.go:20-29 | the quoted form of a text is accepted if and only if the bare one is and has no spaces around it, and then they mean the same |
| MoneyCoefficient.SpaceMatters | backend/internal/api/money_coefficient.go:20-29 | a text that is an amount bare and none in quotes |
| MoneyCoefficient.SpacesAre | backend/internal/api/money_coefficient.go:20 | the characters that are trimmed |
| ForwardedFor.CheckTrusted | backend/internal/api/auth.go:557-565 | trusted if and only if some configured prefix contains the address |
| ForwardedFor.ForwardedClient | backend/internal/api/auth.go:517-542 | the client of the last entry that is not a trusted proxy, or nothing if that entry is unreadable or missing |
| ForwardedFor.AnswerIsUnique | backend/internal/api/auth.go:517-542 | a header has one answer |
| ForwardedFor.PrefixIsIgnored | backend/internal/api/auth.go:517-542 | once some appended entry is not a trusted proxy, nothing put in front matters |
| ForwardedFor.PrefixDecides | backend/internal/api/auth.go:517-542 | otherwise the answer is the prefix's |
| ForwardedFor.LoginClient | backend/internal/api/auth.go:501-555 | the header's answer for a trusted peer, the peer's address without an answer or without trust |
| ForwardedFor.LoginIgnoresPrefix | backend/internal/api/auth.go:501-542 | two logins, one with something put in front of a decided header, get the same address; before an undecided header the address is the prefix's own |
| Attention.CountPairs | backend/internal/app/attention.go:97-110 | the number of distinct unusable pairs of the wanted kind |
| Attention.CountsPartitionPairs | backend/internal/app/attention.go:91-114 | price count plus rate count is the number of distinct unusable pairs |
| Attention.CountsIgnoreOrderAndRepeats | backend/internal/app/attention.go:101-110 | permuting or repeating coverage rows changes neither |
| Attention.ReadDurable | backend/internal/app/attention.go:62-88 | one durable source, by the code's own cascade |
| Attention.DurableIsDurable | backend/internal/app/attention.go:62-88 | for each queue and status: ready, loading or errored, the count shown, one for a bad run, or unknown, and whether it counts as failed |
| Attention.SelectedIsWanted | backend/internal/app/attention.go:97-110 | a pair is counted if and only if some row does not call it usable and its base's last listing is, or is not, a currency |
| Attention.SummaryIsSummary | backend/internal/app/attention.go:42-116 | which record each of the eleven sources comes from, with its name and unit; prices are the pairs without a currency as base, rates those with one |
| Attention.Report.Append | backend/internal/app/attention.go:54-61 | total, completeness and failure flag keep describing the sources so far |
| Attention.Read | backend/internal/app/attention.go:42-116 | eleven sources in fixed order, each saying of its record what IsDurable and IsPairs list; total is the sum of known counts, complete iff all ready, failures iff one failed |
| Attention.QuietMeansAllClear | backend/internal/app/attention.go:49-61 | complete, no failures and total zero if and only if every source is ready, not failed and counted as zero |
| ForecastQuery.ParseIds | backend/internal/api/forecast.go:401-408 | accepted if and only if every text is a positive 64-bit integer; order and multiplicity kept; the message otherwise |
| ForecastQuery.ParsePatterns | backend/internal/api/forecast.go:444-458 | accepted if and only if every text is a positive id, a colon and a pattern without one; a refusal says which of the two a text lacks |
| ForecastQuery.ParsePatternIff | backend/internal/api/forecast.go:444-457 | an override is read from a text exactly by splitting it at its last colon |
| ForecastQuery.PatternRoundTrip | backend/internal/api/forecast.go:444-457 | an override reads back if and only if its pattern is non-empty and has no colon |
| ForecastQuery.PatternsHaveNoColon | backend/internal/api/forecast.go:445-450 | no text yields an empty pattern or one with a colon |
| ForecastQuery.ParseScope | backend/internal/api/forecast.go:387-417 | horizon 1 to 366 or the default, scope and ids as the query's own values mean them; refused only if they mean nothing, with a message that is true of them |
| ForecastQuery.ParseSpending | backend/internal/api/forecast.go:424-460 | the learned-spending part as the query's own values mean it; refused only if they mean nothing, with a message that is true of them |
| ForecastQuery.Parse | backend/internal/api/forecast.go:374-422 | accepted if and only if every key is allowed in the mode and the query has a meaning, which is the result; an unknown key is refused first, and every other message is true of the query |
| ForecastQuery.AllowedIff | backend/internal/api/forecast.go:375-386 | the keys of either mode |
| ForecastQuery.MeaningIsUnique | backend/internal/api/forecast.go:374-460 | a query means at most one input |
| ForecastQuery.ParseInBothModes | backend/internal/api/forecast.go:374-386 | what balances mode accepts, events mode accepts with the same input, and conversely without event keys |
| PlanProjections.ToShareView | backend/internal/api/investment_share_exchange.go:124-161 | entry i shows exactly plan entry i, links and totals, and tells it field by field |
| PlanProjections.ShownShareTells | backend/internal/api/investment_share_exchange.go:124-161 | each field of a response tells the plan's own field: an amount by a text that stands for it at its scale, and only where the basis is not unknown |
| PlanProjections.ShareShowsExactlyTheMeaning | backend/internal/api/investment_share_exchange.go:124-161 | responses are equal if and only if the plans agree apart from amounts of unknown basis |
| PlanProjections.ToMergerView | backend/internal/api/investment_cash_stock_merger.go:108-139 | lookups into the composed share-exchange response are in bounds, entry i is entry i, and tells it field by field |
| PlanProjections.ShownMergerTells | backend/internal/api/investment_cash_stock_merger.go:100-139 | the same for mergers: cash always, realized basis and result each in its own field |
| PlanProjections.MergerShowsExactlyTheMeaning | backend/internal/api/investment_cash_stock_merger.go:100-139 | the same equivalence for mergers, with realized basis and results |
| PlanProjections.ToSpinView | backend/internal/api/investment_spin_off.go:143-182 | entry i shows exactly plan entry i, and tells it field by field |
| PlanProjections.ShownSpinTells | backend/internal/api/investment_spin_off.go:134-182 | the same for spin-offs: moved and remaining basis each in its own field, the latter only where asked for |
| PlanProjections.SpinShowsExactlyTheMeaning | backend/internal/api/investment_spin_off.go:134-182 | the same equivalence for spin-offs; without remaining basis no remaining amount matters |
| TotpDispenser.Dispenser.Run | e2e/proxy-audit/totp-code.ts:11-16 | the next unspent step at most one ahead, recorded as spent, or a refusal that changes nothing |
| TotpDispenser.StepsNeverRepeat | e2e/proxy-audit/totp-code.ts:11-16 | over any runs and any clock, issued steps strictly increase |
| TotpDispenser.NeverFarAhead | e2e/proxy-audit/totp-code.ts:11-16 | with a monotone clock the spent step is at most one ahead |
| TotpDispenser.OneStepOfWaitingSuffices | e2e/proxy-audit/totp-code.ts:1-13 | a refused caller that waits one step is served |
| TotpDispenser.IssuedCodeIsAcceptedIff | backend/internal/totp/totp.go:93-137 | an issued code presented in time passes the one-step window here and the replay guard of backend/internal/db/auth_mfa.go if and only if no used step in the window has the same code |
| TimingReporter.Reporter.Visit | e2e/timing-reporter.ts:35-49 | walking a tree extends the record by exactly the tree's flattening, with each step's nearest enclosing test step, or throws exactly where counting does |
| TimingReporter.Reporter.OnTestEnd | e2e/timing-reporter.ts:32-57 | one attempt per test with the flattening of its step trees, or none if counting throws; what a call left on Object.prototype stays for later tests |
| TimingReporter.WalkNamesTheNearest | e2e/timing-reporter.ts:48-50 | the walk visits exactly the steps of the trees, each with the title of the nearest test step above it, or none |
| TimingReporter.EntryOfVisit | e2e/timing-reporter.ts:36-40 | a visited test step, hook or fixture is recorded with its own title, parent, category, duration and failure, and no other step is |
| TimingReporter.MadeByCall | e2e/timing-reporter.ts:41-46 | exactly the steps of the automation library count as calls, under the trimmed title up to its first quote |
| TimingReporter.CutAtFirstQuote | e2e/timing-reporter.ts:43 | the longest part of a title before a quote of either kind |
| TimingReporter.TableIsExact | e2e/timing-reporter.ts:41-47 | for every operation of a test that is recorded the table has its number of calls and total duration, if and only if it is not an inherited name |
| TimingReporter.RecordIsLostIff | e2e/timing-reporter.ts:43-46 | counting throws if and only if an operation named calls or duration_ms is first used after one named __proto__, in this test or an earlier one |
| TimingReporter.InheritedNameIsMissed | e2e/timing-reporter.ts:44 | one call titled constructor leaves the table empty |
| TimingReporter.ProtoCostsTheRecord | e2e/timing-reporter.ts:44-45 | a call titled __proto__ followed by one titled calls throws |

## Left out

Not modelled at all:

- SHA-256, gzip and tar, YAML parsing, URL splitting, percent-decoding and path resolution, JSON Schema validation, the reading of a quoted amount as a JSON string, IP address and CIDR parsing, ISO date text: functions given as parameters, with the few facts a lemma needs as its requirements; dates are ordinals.
- SQL reads and writes around lots and transfers; average-cost and specific-lot selection; lot eligibility by date; the SQL ordering that makes a list FIFO or LIFO.
- `migration_manifest`, `write_archive`, `package` and `inspect_binary` of the release script: sorted listings without interaction.
- Route selection and case counting in the contract audit's `main`; straight field-copy handlers, error-code switches, cookies, routing.
- `Flush`, `Hijack` and `Push` on the recorder, HEAD requests and HTTP/2 details; how net/http buffers.
- Power loss: a crash is the death of a process, so what `fsync` makes durable is not part of the files' state.
- `exact.Pow10`'s panic above its largest scale; overflow of 64-bit byte counters and of index times interval.
- Every service behind a handler: abstract values, errors or panics.

Where a contract says less than one might expect, or rests on an assumption:

- OfflineMaintenance.InvAlways: the server is an abstract lock client that opens, commits, checkpoints and closes; opening, closing and checkpointing, also when they fail, may fold the log or create the file but not change what is committed; `os.Stat` reports existence faithfully; a checkpoint that reports success has emptied the log; the paths are regular files and no links; nothing outside these commands touches the files, and owner recovery does not write its backup over them.
- MaintenanceSafety.NothingCommittedIsLost: runs start without content in a log whose main file is missing, since such content belongs to no database; the shared-memory index carries no data.
- MaintenanceSafety.RestoreReportIsTrue: a backup elsewhere does not change while it is restored; verification accepts no empty and no cut-off file.
- MaintenanceReports.LiveClaimsAreTrueIff: about restores whose backup can pass verification at all; UnverifiableNeverInstalls covers the others.
- ResponseLifecycle.DownloadIsAllOrError: a service that succeeds without writing gives an empty 200 without archive headers, as in the code; refusals before the archive use final statuses, as all of them do.
- ResponseLifecycle.EnvelopeReadsBack: texts are characters, so bytes that are no UTF-8 do not occur; the list of checkpoints that reconciliation refusals add to an envelope is left out.
- ContractMeaning.ResolvedMeans: one direction; that a value with sound, acyclic references does resolve is ResolvesIffSoundAndAcyclic. The order of keys after a merge is stated for targets without repeated keys, which YAML mappings are.
- ContractResult.ResolvedIsRefFree: its condition is the simple, sufficient one; ResolvedIsRefFreeIff has the exact one, in which merges hidden by an override do not count.
- ContractResolver.ContractLoader.ResolveCached: nesting is bounded by a number as the interpreter's stack bounds it, and ResolvesIffSoundAndAcyclic removes the bound; a missing file and an unparsable one are not told apart; keys that Python takes for equal, such as 1 and true, are kept apart; YAML binary values, sets and aliases by which a value contains itself are not values of the model.
- ReplayClosure.Closure: the final sort of the result into a list is not modelled.
- MaintenanceEndings.RestoreCanSucceed: restores are given one run each of success and of every kind of failure; the exact set of reports is proved for owner recovery and, without the report, for the server.
- Recurrence.ValidateIffSensible: an error is proved to name something that is wrong; that it is the first such thing shows only in the function.
- Recurrence.WindowIsTheRule: dates are day ordinals of the proleptic Gregorian calendar, not text.
- Lots.SellInOrder: takes the lots in the order the query returns; a lot reached that has no units refuses the sale, as in the code, even where later lots could serve it.
- Lots.LotIsConserved: requires the allocation scale to be at least the lot's basis scale, as the caller that chooses it ensures.
- MoneyCoefficient.QuotedAndBareAgree: for texts that need no JSON escaping; an escaped digit is whatever the JSON library makes of it.
- PlanProjections.ShareShowsExactlyTheMeaning: fields that are only copied are grouped into one value each.
- ReleaseManifest.ManifestPinsTheFiles: equality of contents follows where the digest is injective on them.
- TotpDispenser.Dispenser.Run: the step is modelled; the code text computed from it is a function given as a parameter where the server reads it.
