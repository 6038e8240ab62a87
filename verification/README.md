# Data access layer for PostgreSQL: a verified model

This project models the parts of the library where a mistake loses or corrupts data, and proves what they are for.

- **Deferred transactions** (`Deferred*.dfy`, `CteSplitter.dfy`, `CteLiterals.dfy`, `CteRoundTrip.dfy`,
  `Lexical.dfy`). Buffered
  statements are merged into one. A statement is a list of named branches and a final query; a body is a list of
  tokens, whose meaning is an arbitrary function of the rows, tables, words and values it sees. The merged statement
  yields, branch by branch, what each statement yields alone. The splitter that finds the branches works on characters
  and is proved to invert the printer.
- **Guarded writes** (`Repository*.dfy`, `OptimisticLock.dfy`, `LostUpdates.dfy`, `Incarnations.dfy`). A table is a map
  of row incarnations, a statement one atomic step. Selectors, single-row writes, batches with other clients between
  their statements, the unique-conflict pre-check, and any interleaving of clients that read rows and write them later
  by any call, with or without an actor.
- **Migrations** (`PatchRegistry.dfy`, `Migration*.dfy`, `Sql*.dfy`, `TxControls.dfy`, `PatchStatements.dfy`). Any
  number of migrators, an advisory lock, a crash at any step, and admins who change the registry without the lock, as
  a state machine with claims over whole runs; the engine's own loop is proved to take only steps of that machine. The
  statement splitter below it works on characters: every text is written in items (`SqlGrammar.dfy`), and its statements are
  the texts between their semicolons that hold code.
- **Schema drift** (`Rename*.dfy`, `Schema*.dfy`). Rename detection by a greedy matching found through an ordinal
  index, and the loop compare, emit, apply, which reaches a clean check in at most three rounds.
- **Texts that are read back** (`QueryText.dfy`, `QueryFilter.dfy`, `QueryWhere.dfy`, `QueryBuilder.dfy`,
  `IlikeNeedle.dfy`, `Json*.dfy`, `CanonicalText.dfy`, `Manifest.dfy`). Filters and their WHERE clause, the search
  needle, canonical JSON (strings as in section 7 of RFC 8259) and the signed manifest.

Where the code and its documentation differ the model follows the code:

- `deferred-transaction.ts` describes its splitter as aware of doubled quotes in literals. The scan leaves a literal at the
  first one, and a later quote can take it back in. `CteLiterals.Fits` follows the scan over a value; the round trip holds
  for literals that fit, and splitting a statement with one literal is right if and only if it fits
  (`CteRoundTrip.LiteralSplitExact`). `''` and `a'b'` fit, `a'b` does not (`CteLiterals.QuotesThatFit`), and
  `CteRoundTrip.DoubledQuoteBreaksSplit` is a statement cut inside a literal.
- `renameCtes` replaces whole words anywhere. The merge keeps the meaning, for every meaning of bodies, if and only if
  no word of a body has the name of a branch of its own statement and no base table has the name of a branch before it
  (`DeferredClash.MeaningKeptExactly`); an entity with a column called `matched` breaks it
  (`DeferredTransaction.ClashingColumnChangesMeaning`).
- `update` counts a row's version up only when the options carry an actor. Such a write is invisible to everyone who
  holds the old version, whatever they call: updates can be lost if and only if `update` without an actor is in use,
  also when the victim is a `delete` or has an actor itself (`LostUpdates.NoLostUpdateExactly`). A hard delete and a new
  row under the same key restart at version 1 (`Incarnations.ReincarnationIsOverwritten`); that is the one way to reach
  a row one never read (`Incarnations.OnlyRebornRowsAreReached`).
- When `update` writes a unique column, its statement defines the multi-row guard but does not use it
  (`RepositoryUnique.UnreferencedGuard`). An accepted update keeps the unique groups if and only if no two rows that
  match its conditions contest a group (`RepositoryUnique.AcceptedKeepsGroupsExactly`); a matching row at another version
  counts too (`RepositoryUnique.StaleTwinContests`). One row is up to the selector
  (`RepositorySelector.SelectorNamesOneRow`).
- `renderWhere` puts no parentheses around the filters: a deleted row passes exactly when it satisfies a filter joined
  by OR together with those after it up to the next OR (`QueryBuilder.DeletedPassesExactly`).
- The splitter looks for line comments before block comments. A statement in which two dashes stand nowhere but in line
  comments survives exactly when it is more than closed comments, white space and dashes (`SqlSurvival.SurvivesExactly`).
  Dashes in a block comment hide its end, and a later comment then swallows the statement
  (`SqlSurvival.DashesLoseStatement`); what survives in general is `SqlStatements.SplitExactly`.
- A transaction control that the recogniser does not know is sent, and ends the engine's transaction. It misses exactly
  the controls with both options, such as `COMMIT WORK AND CHAIN`, `PREPARE TRANSACTION`, and a `BEGIN` that says more
  (`TxControls.SentControls`). For a patch with an effect, exactly-once holds if and only if what survived is harmless
  (`MigrationSurvivors.ExactlyOnceExactly`): either all controls stand before all effects and the last transaction is
  explicit, because it is chained or reopened, or the patch is always refused and commits nothing on its way
  (`PatchStatements.Harmless`).
- A full row count of a batch means that each item wrote its own row if and only if no item hit two rows
  (`RepositoryBulk.CommittedMeansEachItsOwn`); where identity columns are not unique, another client can bring that about
  between the checks and the write (`RepositoryBulk.SharedIdentityFoolsTheCount`).
- On an entity without a version column a batch skips items that have no row. Over distinct rows it agrees with the
  single-row calls if and only if it commits and every item has a row (`RepositoryWrites.UnguardedBatchIsCalls`).
- A column whose emitted type reads back as another is dirty after every round; nothing else keeps columns from
  converging (`SchemaDrift.ConvergesExactly`).

## Model

| member | source | states |
|---|---|---|
| DeferredClash.MeaningKeptExactly | src/dal/deferred-transaction.ts:273-325 | for every buffer that compiles: the merged statement yields, branch by branch and result by result, what each statement yields alone, for every meaning of bodies, if and only if no word clashes with a branch name |
| DeferredCommit.MergePreservesMeaning | src/dal/deferred-transaction.ts:693-724 | branch `__rN` of the merged statement yields the rows op N's own statement yields on the same snapshot with its own values, each field reference standing for the first row of the op it names; for any buffer without name clashes and any meaning of bodies |
| DeferredCommit.MergedNamesDistinct | src/dal/deferred-transaction.ts:700-715 | no two branches of the merged statement have one name |
| DeferredCommit.OneGlobalIndexPerLocal | src/dal/deferred-transaction.ts:288-325 | over all branches of an op one injective map takes each local `$n` to a global one behind those of the ops before it; a reference takes no slot and names an earlier op |
| DeferredValues.OneNumberEach | src/dal/deferred-transaction.ts:288-325 | the same in the values of the op: number `n` that holds a value has one global number, at which the merged list holds just that value, and no two numbers share one |
| DeferredValues.PlaceholdersKeepValues | src/dal/deferred-transaction.ts:288-325 | in every buffer that compiles, wherever a body of an op has `$n`: bound to a value, the merged body has a placeholder at whose place the merged list holds that value; bound to a reference, it reads that field of that earlier op |
| DeferredValues.PlaceholdersSee | src/dal/deferred-transaction.ts:288-325 | so what the database sees there is the value, or the field in the first row the op referred to yields, NULL without a row |
| DeferredValues.CompileErrorExplains | src/dal/deferred-transaction.ts:299-311 | the error of a buffer that does not compile names a reference that is wrong in that way |
| DeferredErrors.ErrorsSame | src/dal/deferred-transaction.ts:693-724 | the merged statement raises an error of its own bodies, such as a guard's, exactly when some op's statement raises it alone |
| DeferredErrors.OutcomeExactly | src/dal/deferred-transaction.ts:712-724 | the merged statement commits exactly when no op's statement raises alone and every op that must yield a row does, with the ops' own rows as its columns; else it aborts, with the codes of the missing ops and of the errors |
| DeferredCommit.CommitOutcome | src/dal/deferred-transaction.ts:712-724 | for any errors of bodies: it commits exactly when there are none and no op misses its row, and aborts with exactly those codes and the codes of the missing ops |
| DeferredNames.NsInjective | src/dal/deferred-transaction.ts:704-709 | a prefixed name determines the op and the local name |
| DeferredNames.OpNamesDisjoint | src/dal/deferred-transaction.ts:704-714 | the names of two ops are disjoint: prefixed, result and abort names |
| DeferredNames.RenameOwn | src/dal/deferred-transaction.ts:274-280 | the successive replacements take each branch name to its prefixed form and nothing further |
| DeferredNames.IdentSurvivesExactly | src/dal/deferred-transaction.ts:274-280 | another word of the statement survives renaming exactly when no branch has its name |
| DeferredMeaning.CtesMeaning | src/dal/deferred-transaction.ts:706-708 | each renamed and renumbered branch sees, in the merged statement, what it saw in its own |
| DeferredTransaction.CompilesExactly | src/dal/deferred-transaction.ts:299-311 | a buffer compiles exactly when every reference in use names an earlier op that emits the field |
| DeferredTransaction.ClashingColumnChangesMeaning | src/repository/repository.ts:1672-1678 | the statement of `update` for an entity with a column called `matched`: the column is renamed with the branch, and some meaning of bodies sees the difference |
| DeferredTransaction.RemapParams | src/dal/deferred-transaction.ts:288-325 | the loop over placeholders, appending to the merged values and filling the index map, computes the specified body |
| DeferredTransaction.MergeOp | src/dal/deferred-transaction.ts:700-714 | the branches, the wrapped tail and the abort branch of one op |
| DeferredTransaction.MergeAll | src/dal/deferred-transaction.ts:696-724 | the statement for the whole buffer |
| DeferredTransaction.CommitIsAllOrNothing | src/dal/deferred-transaction.ts:687-741 | commit succeeds exactly when the buffer compiles, no op's statement raises alone and no op misses its row; then each handle holds what its own statement would have returned, else every handle fails with the same error, one of these codes |
| DeferredTransaction.HandlesHold | src/dal/deferred-transaction.ts:726-736 | after a successful commit each handle holds what its kind of operation promises of the rows its own statement yields alone |
| DeferredTransaction.FinalizePromises | src/dal/deferred-transaction.ts:566-660 | a write gives its visible columns of the first row, a find the first row or none, a list all rows, a page the rows without the total beside the total, a count the number; it fails exactly where a number is a text |
| DeferredTransaction.DeferredTx.Register | src/dal/deferred-transaction.ts:758-850 | buffering changes only the buffer; audit and closed transactions are refused |
| DeferredTransaction.DeferredTx.Commit | src/dal/deferred-transaction.ts:687-741 | every handle settles as `CommitView` says, the call errs with `CommitError`, and a second commit is refused |
| DeferredTransaction.DeferredTx.Discard | src/dal/deferred-transaction.ts:747-754 | an open transaction is closed and all its handles fail; a closed one is left alone |
| DeferredTransaction.Deferred.Read | src/dal/deferred-transaction.ts:131-139 | reading before settlement is an error, after it the value or the stored error |
| CteSplitter.SkipWhitespace | src/dal/deferred-transaction.ts:222-231 | skips white space and comments |
| CteSplitter.ScanBody | src/dal/deferred-transaction.ts:243-264 | from an opening parenthesis through the one that closes it |
| CteSplitter.SplitTopLevelCtes | src/dal/deferred-transaction.ts:217-271 | the loop computes the specified branches and tail |
| CteRoundTrip.SplitInvertsPrint | src/dal/deferred-transaction.ts:209-271 | for every list of named branches with balanced parentheses, quoted names, comments and literals whose values fit, and every tail: splitting the printed statement gives exactly these branches and this tail |
| CteRoundTrip.LiteralSplitExact | src/dal/deferred-transaction.ts:243-264 | for every value, quotes, parentheses and comment marks included: splitting the statement whose one branch is this literal gives back the branch and the query if and only if the value fits |
| CteLiterals.LiteralBodyExact | src/dal/deferred-transaction.ts:243-264 | the scan of a body that is one literal ends at its parenthesis if and only if the value fits |
| CteLiterals.LiteralPassed | src/dal/deferred-transaction.ts:246-251 | at any depth the scan passes a literal whose value fits |
| CteLiterals.QuotesThatFit | src/dal/deferred-transaction.ts:246-251 | two values with quotes that fit and two that do not |
| CteRoundTrip.DoubledQuoteBreaksSplit | src/dal/deferred-transaction.ts:246-251 | on this statement the branch ends inside the literal |
| SqlSplitter.NextToken | src/migrations/sql-splitter.ts:98-153 | one step of the splitter over quotes, dollar bodies, comments and characters |
| SqlSplitter.SplitSqlStatements | src/migrations/sql-splitter.ts:79-154 | the loop computes the statements that `SqlStatements.SplitExactly` tells by the text alone |
| SqlStatements.EveryTextReads | src/migrations/sql-splitter.ts:98-153 | every text is written in characters, semicolons, comments, quoted values with doubled quotes and dollar bodies, the last of which may stay open |
| SqlGrammar.SegmentsRead | src/migrations/sql-splitter.ts:98-153 | whatever such items a text is written in, the scan cuts it at their semicolons and leaves their line comments out |
| SqlStatements.KeepExactly | src/migrations/sql-splitter.ts:84-94 | a trimmed text is kept exactly when without its line comments it has a character that is neither white space nor a dash, and a solid one outside of the block comments |
| SqlStatements.SplitExactly | src/migrations/sql-splitter.ts:79-154 | for every text: its statements are, in order, the texts between the semicolons of its items that hold code in this sense, without the white space around them |
| SqlSurvival.SurvivesExactly | src/migrations/sql-splitter.ts:84-94 | a statement with dashes in line comments only survives exactly when an item of it is no white space and no closed comment, and one is more than white space and dashes |
| SqlSurvival.DashesLoseStatement | src/migrations/sql-splitter.ts:84-94 | here a block comment with dashes and a later one swallow the statement between them |
| SqlRoundTrip.Relex | src/migrations/sql-splitter.ts:98-153 | a statement cut out of a patch lexes the same wherever it is put, even when its last token was never closed |
| SqlRoundTrip.SplitJoinSplit | src/migrations/sql-splitter.ts:79-154 | for every text: splitting the `;\n`-join of its statements gives the same statements |
| SqlRoundTrip.StripKeepsTheRest | src/migrations/sql-splitter.ts:64-68 | for every text: what runs after stripping is exactly the statements of `SqlStatements.SplitExactly` that are no recognised control, in order |
| SqlRoundTrip.StripIsClean | src/migrations/sql-splitter.ts:50-68 | stripping is idempotent and leaves nothing the recogniser knows |
| TxControls.TextIsControl | src/migrations/sql-splitter.ts:41-53 | a text of plain words with any white space between them is transaction control exactly when its words, in any letter case, are one of the listed forms |
| TxControls.RecognisedForms | src/migrations/sql-splitter.ts:41-42 | these are `BEGIN`, `START TRANSACTION`, `COMMIT`, `END`, `ROLLBACK`, `ABORT` with nothing, `WORK`, `TRANSACTION` or `AND [NO] CHAIN` behind |
| SqlStatements.CodeOnlyExactly | src/migrations/sql-splitter.ts:50-53 | the recogniser reads the statement without line comments, then without block comments, then without the white space around |
| TxControls.SurvivingControls | src/migrations/sql-splitter.ts:41-53 | of the controls that end a transaction exactly those with both options are not recognised; whether one chains is in its last words |
| TxControls.SentControls | src/migrations/sql-splitter.ts:50-68 | for every text: what the engine sends ends its transaction exactly when it has both options or prepares, chains exactly when it says so, and opens one exactly when it is a `BEGIN` with more words than expected |
| TxControls.PlainPatchHarmless | src/migrations/sql-splitter.ts:55-68 | a text without such statements is harmless |
| TxControls.ChainedBefore | src/migrations/sql-splitter.ts:41-68 | a chained control before an effect is harmless, behind one or unchained it is not |
| TxControls.PrepareSurvives | src/migrations/sql-splitter.ts:41-53 | a text that begins with PREPARE is never recognised |
| PatchRegistry.Upserted | src/migrations/engine.ts:379-412 | the row takes status, hash, key, error and atomicity of this attempt and one attempt more; actor and duration only when given, admin notes stay; no other row changes |
| PatchRegistry.AttemptsAreCounted | src/migrations/engine.ts:379-412 | over any list of attempts a row counts its own and names the last known actor |
| PatchRegistry.Registry.UpsertStatus | src/migrations/engine.ts:370-412 | the registry becomes the upserted one |
| PatchRegistry.Retried | src/migrations/status.ts:33-38 | every failed row becomes pending without its error, under the name of who asked, its note and all else kept; no other row changes |
| PatchRegistry.ApprovedRows | src/migrations/status.ts:54-59 | a row that waits for review becomes approved with the admin and the note, all else kept; no other row changes |
| PatchRegistry.ResolvedRows | src/migrations/status.ts:71-77 | a failed, pending or waiting row becomes resolved with the admin and the reason and without its error, all else kept; no other row changes |
| PatchRegistry.Registry.RetryFailedPatches | src/migrations/status.ts:28-40 | the registry becomes `Retried`, the failed rows are counted |
| PatchRegistry.Registry.ApprovePendingReview | src/migrations/status.ts:46-61 | the registry becomes `ApprovedRows`, which differs exactly when the row waits for review |
| PatchRegistry.Registry.ResolveManually | src/migrations/status.ts:63-78 | the registry becomes `ResolvedRows`, which differs exactly when the row is failed, pending or waiting for review |
| MigrationAttempts.StepKeeps | src/migrations/engine.ts:141-362 | every step of every process, crash or admin keeps the invariant of registry, log, lock and open transactions |
| MigrationAttempts.RunKeeps | src/migrations/engine.ts:141-362 | hence every run does |
| MigrationAttempts.RegistersOnce | src/migrations/engine.ts:283-335 | an attempt writes its registry row in its last statement but one, and nowhere else |
| MigrationAttempts.CleanStatement | src/migrations/engine.ts:285-301 | before its last commit a patch whose surviving controls are harmless has made nothing durable, and that commit makes all of it durable with the row |
| MigrationInvariants.AdminSteps | src/migrations/status.ts:28-78 | no admin operation adds a row, changes a hash, touches a settled or approved row, or makes one applied |
| MigrationRuns.ExactlyOnce | src/migrations/engine.ts:263-349 | over any processes, crashes and admin operations: a patch shown only as one transactional segment with harmless controls, if any, has all its effects durable once, in order, when its row is `applied`, and none otherwise |
| MigrationRuns.SettledPrefix | src/migrations/engine.ts:104-107 | the settled patches are an initial part of the file list and only the next one can have a row besides |
| MigrationRuns.SuccessStays | src/migrations/engine.ts:263-350 | a run in apply mode that returns without `degraded` leaves everything it saw settled, for good |
| MigrationRuns.OneHolder | src/migrations/engine.ts:121-139 | two processes are never both inside the lock |
| MigrationRuns.AppliedStep | src/migrations/engine.ts:232-245 | one step of anybody keeps an applied row and the content behind it |
| MigrationRuns.AppliedIsFinal | src/migrations/engine.ts:379-400 | over all interleavings an applied row never changes again, and its hash is that of the content executed |
| MigrationRuns.EntersLoop | src/migrations/engine.ts:169-261 | a run reaches its loop exactly in apply mode with files that the signed manifest lists under their hash and whose settled rows have the hash of the file or of its raw text; it returns without files, switched off, or checking intact ones; else it throws |
| MigrationRuns.TurnsExactly | src/migrations/engine.ts:263-283 | in the loop a file is skipped exactly when its row is applied or resolved; it ends the run with a row that waits for review exactly when it wants one and neither its row nor the options approve it; else it is executed |
| MigrationRuns.ChangedContentNeverRuns | src/migrations/engine.ts:232-245 | a process at work holds, for every patch applied before it, the content that was executed |
| MigrationRuns.ReviewBeforeRun | src/migrations/engine.ts:269-279 | a patch that requires review runs only when the options approve it or an admin did since its last recorded failure |
| MigrationSurvivors.ExactlyOnceExactly | src/migrations/engine.ts:283-301 | for a transactional patch with an effect: exactly-once over all runs that show it, if and only if the controls that survived in it are harmless |
| PatchStatements.ChainedHarmless | src/migrations/sql-splitter.ts:55-68 | when every surviving control chains, they are harmless exactly when no effect stands before one |
| PatchStatements.UnchainedHarmful | src/migrations/sql-splitter.ts:55-68 | when none is refused and none reopens, exactly when all chain and all stand before the effects |
| MigrationEngine.Engine.Attempt | src/migrations/engine.ts:281-338 | sends the statements of `Program`, each a step of the machine, until one fails; the store is what those before it leave; a patch without surviving controls runs through when nothing fails |
| MigrationPrograms.ProgramStmts | src/migrations/engine.ts:285-321 | an attempt sends every statement of every segment, in order, and no other |
| MigrationPrograms.MixedProgram | src/migrations/engine.ts:303-334 | in a mixed patch each transactional segment stands in a transaction of its own, each statement of the others alone, and the row in a last transaction |
| MigrationPrograms.AtomicProgramIs | src/migrations/engine.ts:285-297 | a patch of one transactional segment is one transaction, with the row at its end |
| MigrationPrograms.PlayedProgram | src/migrations/engine.ts:285-335 | a patch without surviving controls that runs through leaves the effects of every segment, in order, and its row |
| MigrationPrograms.Unfinished | src/migrations/engine.ts:298-335 | one that fails at any statement leaves an initial part of its effects, none when it is atomic, and no row |
| MigrationEngine.Engine.StopAtFailure | src/migrations/engine.ts:338-349 | the failure row is written after the rollback, on its own, or the run throws |
| MigrationEngine.Engine.StopForReview | src/migrations/engine.ts:269-279 | the row waits for review and the run stops, degraded |
| MigrationEngine.Engine.ApplyFiles | src/migrations/engine.ts:263-350 | the report names the skipped, applied, failed and waiting files; `degraded` is false exactly when the loop ended; log and registry are those of `RunMigrations` |
| MigrationEngine.Engine.UnderLock | src/migrations/engine.ts:172-261 | a refused gate leaves the database alone and answers as `MigrationRuns.EntersLoop` says |
| MigrationEngine.Engine.RunMigrations | src/migrations/engine.ts:141-362 | a call that starts with the lock free and runs undisturbed is a legal run of the machine, gives the lock back, and on success leaves its files settled. For patches without surviving controls: the log grows by all effects of the newly applied files in file order, and of the file it stopped at by an initial part, none when it is atomic or waits for review; exactly these files have new rows, with the hash, key, actor, status, error, count of attempts and atomicity of this run; when no statement fails it stops only for a review |
| RepositoryRows.RaceGuardCounts | src/repository/repository.ts:3419-3430 | with at most one row per identity the row count reaches the number of items exactly when each item wrote a row of its own at its expected version |
| RepositoryRows.ReachedCountExact | src/repository/repository.ts:3425-3430 | on any table: a reached count means a row of its own for each item if and only if no item hits two rows |
| RepositoryBulk.CommittedMeansEachItsOwn | src/repository/repository.ts:3416-3430 | whatever others commit between the checks and the write: a committed batch changed only the rows it counted, and wrote each item's own row at its version if and only if no item hit two rows, as with unique identity columns |
| RepositoryBulk.BulkIsOneByOne | src/repository/repository.ts:3405-3430 | undisturbed, a guarded batch commits exactly when its items name distinct rows and the writes one by one all succeed, and leaves the same table |
| RepositoryBulk.EachAloneSucceeds | src/repository/repository.ts:3405-3430 | over distinct rows: exactly when each write alone would succeed |
| RepositoryBulk.BatchOfOne | src/repository/repository.ts:1268-1341 | a batch of one is the single-row write, down to the error code |
| RepositoryBulk.SharedIdentityFoolsTheCount | src/repository/repository.ts:3425-3430 | here both checks pass, another client commits, and the batch commits with a full count although one item wrote two rows and the other none |
| RepositoryBulk.UnguardedBatchExactly | src/repository/repository.ts:3416-3430 | without a version column a batch commits unless an item names two rows; over distinct rows the single writes all succeed exactly when it commits and every item names a row, and then leave the same table |
| RepositoryBulk.UnguardedBatchSkips | src/repository/repository.ts:3425-3430 | on an empty table a batch commits where the single call fails |
| RepositorySelector.ResolveSelectorProps | src/repository/repository.ts:850-882 | the loop expands each unique group, or answers ERR09 |
| RepositorySelector.ResolveMatchConditions | src/repository/repository.ts:884-925 | selector plus key and `uuid` when present; incomplete or empty is ERR09 |
| RepositorySelector.ResolveBulkMatchColumns | src/repository/repository.ts:936-978 | the columns of a batch, or ERR09 for an uneven one |
| RepositorySelector.SelectorExact | src/repository/repository.ts:850-882 | a selector is accepted exactly when each of its columns is the key or unique, and stands for these and all that share a unique index with one of them |
| RepositorySelector.CondsExact | src/repository/repository.ts:884-925 | the conditions are the selector's columns, the key and the `uuid` as far as the payload has them, with its values |
| RepositorySelector.CondsRefused | src/repository/repository.ts:884-925 | there are none exactly when the selector is refused, a column of it is missing, or nothing is left |
| RepositorySelector.BulkColumnsExact | src/repository/repository.ts:928-978 | a batch resolves to some columns exactly when each of its items, as a single write, resolves to them |
| RepositorySelector.CondsIdentify | src/repository/repository.ts:858-925 | resolved conditions hold the key, a whole unique group, or the `uuid` |
| RepositorySelector.SelectorNamesOneRow | src/repository/repository.ts:829-848 | on a table that keeps its unique indexes, with `uuid` unique, a write names at most one row |
| RepositoryUnique.PreCheckExact | src/repository/repository.ts:1645-1737 | with one matched row at the expected version, on a table that keeps its groups: the conflict set is non-empty exactly when the write would break a group |
| RepositoryUnique.AcceptedKeepsGroupsExactly | src/repository/repository.ts:1690-1737 | whatever the selector: an accepted update keeps every unique group if and only if no two rows matching its conditions contest a group it writes to |
| RepositoryUnique.AcceptedKeepsGroups | src/repository/repository.ts:1690-1737 | with at most one matching row every accepted update keeps every unique group |
| RepositoryUnique.UnreferencedGuard | src/repository/repository.ts:1699-1737 | with a shared `uuid` this statement writes two rows and breaks a group where the guarded one refuses |
| RepositoryUnique.StaleTwinContests | src/repository/repository.ts:1690-1737 | one written row is enough when its twin is at another version |
| RepositoryWrites.BatchPlanned | src/repository/repository.ts:3245-3292 | what a batch sends for an item is what the single call would send |
| RepositoryWrites.SinglesPlanned | src/repository/repository.ts:3245-3292 | when every single call can be sent, so can the batch |
| RepositoryWrites.BatchIsCalls | src/repository/repository.ts:3237-3479 | for items with the same keys that write no unique column on a versioned entity: `updateMany`, `deleteMany` and `restoreMany` commit exactly when the items name distinct rows and the single calls in sequence all succeed, and leave the table they leave |
| RepositoryWrites.UnguardedBatchIsCalls | src/repository/repository.ts:3237-3479 | on an entity without a version, over distinct rows: the single calls all succeed exactly when the batch commits and every item has a row, and leave the same table |
| Repository.AutoBatchSize | src/repository/repository.ts:276-280 | as many rows as fit under 65535 parameters, at most 1000 |
| Repository.FillTemp | src/repository/repository.ts:2753-2778 | the temp table holds every item once, in order |
| Repository.Repository.BuildWrite | src/repository/repository.ts:1549-1608 | the SET columns and conditions that `RepositoryEffects.SingleWrote` tells by the rows, with the errors of `RepositoryEffects.RefusedExactly` |
| Repository.Repository.Write | src/repository/repository.ts:1667-1751 | the row is written as `RepositoryEffects.SingleWrote` says, or the table is as before and the call fails with the code of the case |
| RepositoryEffects.SingleWrote | src/repository/repository.ts:1549-1608 | a successful `update`, `delete` or `restore` writes exactly the rows that fit the conditions and the version: an update each payload column outside the conditions, a delete the time and the actor, a restore NULL in both; audit stamps and the version as the call says; every other column and row stays |
| RepositoryEffects.RestoreUndoesDelete | src/repository/repository.ts:1974-1979 | after `delete` and `restore` a live row is as it was but for the audit stamps and the version |
| RepositoryEffects.RefusedExactly | src/repository/repository.ts:1549-1608 | which check refuses a call before its statement, in the order of the checks |
| RepositoryEffects.DuplicateAnswers | src/repository/repository.ts:1703-1722 | a duplicate answers ERR05 when the reported row is soft-deleted, ERR04 when it is live |
| RepositoryEffects.AnswersExactly | src/repository/repository.ts:150-192 | by the table alone: when a guarded write succeeds, and when it answers ERR01, ERR03, ERR10 or not found |
| Repository.Repository.HardDelete | src/repository/repository.ts:2089-2142 | the row goes, under the same guard and version |
| RepositoryEffects.HardDeletes | src/repository/repository.ts:2089-2142 | exactly the rows that fit the conditions and the version go |
| Repository.Repository.ExpectedVersions | src/repository/repository.ts:1225-1259 | ERR02 exactly when some row of a versioned entity lacks its version |
| Repository.Repository.Transact | src/repository/repository.ts:3403-3430 | checks, write and row count with other clients in between; a failed batch leaves what they left |
| Repository.Repository.WriteMany | src/repository/repository.ts:3237-3479 | the whole batch call; when it commits, the rows are written as `RepositoryEffects.BatchWrote` says |
| RepositoryEffects.BatchWrote | src/repository/repository.ts:3291-3440 | a committed batch writes exactly the rows that some item fits, each for one item that fits it, column by column as the single call; every other row stays |
| RepositoryEffects.StaleCodeExactly | src/repository/repository.ts:1268-1341 | by the table alone: when the stale check of a batch passes, and when it answers ERR10, ERR03 or ERR01 |
| OptimisticLock.VersionsCountBumps | src/repository/repository.ts:1582-1584 | over every interleaving of any calls: a state of a row incarnation carries one plus the number of writes up to it that count the version up; the last one is the row |
| OptimisticLock.VersionsFrom | src/repository/repository.ts:1569-1586 | versions never decrease, and stay the same exactly while no write counts up |
| OptimisticLock.GuardExact | src/repository/repository.ts:1628-1634 | the version guard passes exactly when no write since the read counted the version up |
| OptimisticLock.ReplacesWhatItRead | src/repository/repository.ts:1628-1634 | over every interleaving of any calls: a client that writes the row it read, alone or in a batch, replaces the state it read, unless writes that left the version alone came between |
| LostUpdates.VersionsAreConsecutive | src/repository/repository.ts:1582-1584 | without `update` calls that have no actor the states of an incarnation carry the versions 1, 2, 3, … in the order written |
| LostUpdates.NoLostUpdateExactly | src/repository/repository.ts:1569-1586 | over every interleaving of calls of the permitted modes, and for every call of the victim: no client overwrites, deletes or restores another state of its row than the one it read, if and only if `update` without an actor is not permitted |
| Incarnations.OnlyRebornRowsAreReached | src/repository/repository.ts:2097-2131 | over every run: who names the row it read by its key writes another incarnation only if the one it read was hard-deleted and a row with the same key was added after the read |
| Incarnations.ReincarnationIsOverwritten | src/repository/repository.ts:2097-2131 | that happens: the new row restarts at version 1 and is overwritten with the old one |
| RenameMatching.GreedyIsTheOnlyMatching | src/schema-diff/schema-rename-heuristics.ts:295-318 | the greedy matching is one-to-one and the only one in which every rejected pair loses to an earlier accepted one with a column in common |
| RenameMatching.OrderInsideTiersIsIrrelevant | src/schema-diff/schema-rename-heuristics.ts:288-318 | without an ambiguous tier the chosen pairs do not depend on the order inside the tiers |
| RenameMatching.OrderMattersExactly | src/schema-diff/schema-rename-heuristics.ts:295-318 | after any earlier tiers: the order inside a tier matters if and only if two of its candidates that are still free share a column |
| RenameMatching.AmbiguousTierDependsOnOrder | src/schema-diff/schema-rename-heuristics.ts:216-246 | so in a first tier exactly when it is ambiguous |
| RenameHeuristics.Classify | src/schema-diff/schema-rename-heuristics.ts:86-130 | a classified pair is within two places or lacks one |
| RenameHeuristics.BuildOrdinalIndex | src/schema-diff/schema-rename-heuristics.ts:138-150 | lists exactly the columns at each place |
| RenameHeuristics.CandidateColumns | src/schema-diff/schema-rename-heuristics.ts:167-199 | gives every column that can be classified |
| RenameHeuristics.FillBuckets | src/schema-diff/schema-rename-heuristics.ts:260-286 | probing the index fills the same buckets as classifying the whole product, each pair once |
| RenameHeuristics.SortTier | src/schema-diff/schema-rename-heuristics.ts:201-214 | sorts a tier by primary-key pair and names |
| RenameHeuristics.SortedProductIsUnique | src/schema-diff/schema-rename-heuristics.ts:201-214 | the sorted buckets, hence the renames, are determined by the product alone |
| RenameHeuristics.FindAmbiguityInTier | src/schema-diff/schema-rename-heuristics.ts:216-246 | exactly the columns in more than one pair of the tier |
| RenameHeuristics.FindLikelyRenames | src/schema-diff/schema-rename-heuristics.ts:252-328 | the renames are the greedy matching of the sorted full product; review exactly when a tier is ambiguous |
| RenamePreference.TierIs | src/schema-diff/schema-rename-heuristics.ts:86-130 | exactly the pairs of compatible types within two places or without one, and of an untyped column within one place and of the same known nullability, have a tier; the tiers go by grade and distance |
| RenamePreference.GreedyIsBest | src/schema-diff/schema-rename-heuristics.ts:201-318 | the renames are one-to-one pairs, and every pair is one or shares a column with a rename that is preferred: compatible and placed before untyped before compatible without a place, then nearer, then primary keys, then the names |
| SchemaCompare.CompareSnapshots | src/schema-diff/schema-snapshot.ts:85-145 | the loop over tables and columns computes the specified diff with admissible rename answers |
| SchemaPatch.EmitReview | src/schema-diff/emit-sql-patch.ts:243-269 | the review statements of a table: renames unless held back, types, nullability |
| SchemaPatch.BuildSqlPatch | src/schema-diff/emit-sql-patch.ts:139-269 | executing the safe and the review section in this order gives exactly the patched database; the safe section alone adds tables and columns |
| SchemaDrift.CommonColumnAgrees | src/schema-diff/emit-sql-patch.ts:256-269 | a declared column the database has agrees after one round |
| SchemaDrift.MissingColumnComes | src/schema-diff/emit-sql-patch.ts:219-254 | a missing one comes, added or renamed, unless renames are held back |
| SchemaDrift.ExtrasShrink | src/schema-diff/emit-sql-patch.ts:219-254 | a round brings no new extra columns and keeps the rest as they are |
| SchemaDrift.SecondRoundUnambiguous | src/schema-diff/schema-snapshot.ts:105-118 | after the first round no table is ambiguous |
| SchemaDrift.CleanExactly | src/migrations/drift.ts:30-47 | the check is clean exactly when every declared table exists and every declared column is in it with the declared type and nullability, whichever renames are found |
| SchemaDrift.NewTableIs | src/schema-diff/emit-sql-patch.ts:139-218 | a table that was missing has exactly the declared columns, as declared |
| SchemaDrift.NewColumnIs | src/schema-diff/emit-sql-patch.ts:219-254 | so has a missing column that is no rename |
| SchemaDrift.DriftConverges | src/migrations/drift.ts:30-47 | when every declared type reads back as declared after `ALTER … TYPE`: whatever the database and whichever admissible renames are found, after three rounds the check is clean and the database conforms: every declared table and column is there with its type and nullability |
| SchemaDrift.TwoRoundsAreNotEnough | src/schema-diff/emit-sql-patch.ts:243-254 | here two rounds do not |
| SchemaDrift.ConvergesExactly | src/schema-diff/schema-type-normalize.ts:44-49 | any number of rounds from three on ends clean and conforming, whatever the database and the admissible renames, if and only if every declared type reads back as declared after `ALTER … TYPE` |
| SchemaDrift.OtherTypeNeverSettles | src/schema-diff/schema-type-normalize.ts:44-49 | a column whose emitted type reads back as another stays dirty after every round |
| SchemaCompare.CloseDrift | src/migrations/drift.ts:12-47 | under the same proviso three rounds of the real comparison and emitter end in a clean diff and a conforming database |
| QueryText.FlatReads | src/query/query-builder.ts:257-268 | any list of readable operands reads as its runs of AND, joined by OR |
| QueryWhere.TextReads | src/query/query-builder.ts:179-238 | every filter without empty group or IN list reads as itself in any context |
| QueryWhere.TextFails | src/query/query-builder.ts:185-236 | any other reads as nothing |
| QueryWhere.TextMeans | src/query/query-builder.ts:179-238 | with its values in the parameter list the text means the filter: each group its connector, each placeholder its own value |
| QueryFilter.GroupMeaning | src/query/query-builder.ts:228-238 | a group is joined by its connector, or its own operand; AND is true when every child is and false when one is, OR the other way round |
| QueryFilter.ComparisonMeaning | src/query/query-builder.ts:179-227 | `!=` is true of NULL and of what differs; a list stands for its values, any other value for itself |
| QueryFilter.ValuesBound | src/query/query-builder.ts:179-238 | which values a condition binds, in order, and when it is refused |
| QueryBuilder.WhereReads | src/query/query-builder.ts:240-272 | the clause is a readable condition exactly when no group and no IN list is empty |
| QueryBuilder.WhereMeans | src/query/query-builder.ts:240-272 | with only AND at the top it means the soft-delete clause and all filters |
| QueryBuilder.PassesExactly | src/query/query-builder.ts:240-272 | whatever the operands at the top: a row passes the clause exactly when it passes the soft-delete clause and the filters up to the first OR, or the filters from some OR to the next |
| QueryBuilder.DeletedPassesExactly | src/query/query-builder.ts:249-268 | with deleted rows excluded a deleted row passes exactly by a run of filters that an OR begins |
| QueryBuilder.ExcludesDeletedExactly | src/query/query-builder.ts:249-268 | for filters with nothing empty in them that do not test the deletion column: no truth values of their conditions let a deleted row pass, if and only if no filter but the first is joined by OR |
| QueryBuilder.ParamWriter.Add | src/query/query-builder.ts:46-52 | appends the value; the placeholder is its position |
| QueryBuilder.ParamWriter.RenderFilterExpr | src/query/query-builder.ts:179-238 | the specified text and values, or the error |
| QueryBuilder.ParamWriter.RenderWhere | src/query/query-builder.ts:240-272 | the clause, with the filters' values appended in order |
| IlikeNeedle.BuildIlikeNeedle | src/entity/entity-service.ts:229-258 | the loop computes the pattern; `trueChars` counts the UTF-16 units of the literal characters, the flag tells whether there is a wildcard |
| IlikeNeedle.NeedleIsExact | src/query/query-builder.ts:206-208 | under LIKE with ESCAPE '#', up to any character equality: a string matches exactly when some part of it matches the raw text with `\*` as any run and `\?` as any one character |
| IlikeNeedle.PlainTextIsLiteral | src/entity/entity-service.ts:251-256 | text without the two escapes stands for itself, counted in full |
| IlikeNeedle.UnitsExactly | src/entity/entity-service.ts:229-258 | a character counts twice exactly when a pair of surrogates stands for it |
| CanonicalText.Prefix | src/migrations/manifest.ts:51-57 | canonical texts can be read from the front in one way only |
| CanonicalText.CanonicalTextExact | src/migrations/manifest.ts:50-57 | two values have the same text if and only if they are equal up to the order of object keys |
| JsonText.SortedIsUnique | src/migrations/manifest.ts:55-55 | a set of keys has one sorted list |
| JsonGrammar.CanonicalDenotes | src/migrations/manifest.ts:50-57 | the canonical text is JSON for the value, without white space, keys in ascending order |
| JsonGrammar.LessExactly | src/migrations/manifest.ts:55-55 | that order is the one of their UTF-16 code units |
| JsonGrammar.EscapesAreHosts | src/migrations/manifest.ts:52-52 | nothing is escaped that need not be, the short forms are used, hexadecimal digits are small |
| Manifest.Lookup | src/migrations/manifest.ts:77-80 | the first key of the ring with the id and an allowed trust |
| Manifest.VerdictExactly | src/migrations/manifest.ts:72-91 | a manifest is accepted exactly when the first key it names and the caller allows verifies its signature over the canonical text of its other members; without such a key it is untrusted |
| Manifest.VerdictIgnoresKeyOrder | src/migrations/manifest.ts:72-91 | reordering keys at any depth changes no verdict |
| Manifest.SignedVerifies | src/migrations/manifest.ts:72-101 | a signed manifest verifies in any key order when the first usable key of its id is the signer's |
| Manifest.TamperedIsRefused | src/migrations/manifest.ts:86-90 | under a scheme where a signature fits one text, other content under the same key and signature is refused, the same content in any order accepted |

## Left out

- DeferredClash.MeaningKeptExactly: assumes that the branches of one statement have different names, none of them another's name with the prefix.
- Deferred merge: names, parameters and references are handled on tokens; that the two regular expressions find exactly those tokens in the text is not modelled. Shaping of the result rows (jsonb to values) is one abstract function of the op.
- Deferred merge: when several abort branches fire the database reports one of their codes; the model allows any of them. Of several ops whose capture fails the model reports the first.
- CTE splitter: identifiers are ASCII words; a head keyword is matched without regard to case, white space is space, tab, line feed and carriage return where the source uses `\s`.
- Migrations: clocks, durations, the wait loop of the lock and statement timeouts; a lost session is a crash, which drops the open transaction and the lock. Statements of a patch are effects with a tag, not SQL.
- Migrations: the parsing of segments and pragmas; savepoints inside a patch; a transaction that a patch prepares counts as not committed, whoever commits it later.
- Migrations: files are read once at the start; the admin status query and the re-read of the mode after the loop are left out. `cleared` and `unclean` in the model's state are records no step reads.
- MigrationRuns.ReviewBeforeRun: an approval given through the call's options may be older than the last failure, because the code does not compare them.
- Repository: property keys and column names are one and the same, values are integers or NULL; conversion of values, RETURNING, audit rows, timeouts, `add`, `addMany`, `hardDeleteMany` and clone are left out.
- Repository: the errors of a write that touched no row are taken from the table the write saw; the code asks again in separate statements. The guard counts as evaluated before the write whenever the statement refers to it.
- MigrationEngine.Engine.RunMigrations: starts with a free lock and no one else moves during the call; what interleavings do, and what a patch with surviving controls leaves, is proved of the machine, whose steps the call takes.
- LostUpdates.NoLostUpdateExactly: its second half is shown for an entity with a key and an ordinary column, and calls by key; the first half needs neither.
- RepositoryUnique.AcceptedKeepsGroupsExactly: assumes, like the pre-check, that no stamped column is in a unique group.
- RepositoryBulk.UnguardedBatchExactly: says nothing about items that share a row, where the database picks one of them.
- RepositoryWrites.BatchIsCalls: excludes batches that stamp an identity column, because such a batch is a statement error while the single call is not.
- RepositoryUnique.PreCheckExact: assumes that no stamped column is in a unique group, because the conflict set compares the payload only.
- Rename detection: the collation is an injective rank of names; names that the locale considers equal are left out, and so is the final ordering of the list for display.
- Drift: indexes, foreign keys, defaults, extensions, schemas, partitions and audit tables; every emitted statement is taken to succeed, so `DROP NOT NULL` on a key, which the database refuses, is not captured.
- Filters: fields are names, so table qualification, overrides and the text cast of `uuid` are left out; raw and expression filters are atomic; vector operands are bound as given, without the conversion to a literal; projection, joins, grouping, sorting and paging are left out.
- Search: which fields are searched and when a needle is too short.
- Canonical JSON: numbers are the text the host prints; `undefined`, NaN and unpaired surrogates are no JSON values here. Ed25519, base64 and key parsing are abstract functions.
- Streaming, pools, type parsers, decorators, the command line and the standards scanner: plumbing, or settled by one branch.
