# A model of pgcopydb's protocols, and proofs about it

pgcopydb clones a PostgreSQL database with many cooperating processes, an
internal SQLite catalog that survives crashes, and `pg_dump`/`pg_restore` for
what it does not build itself. This project models the parts where these meet,
in Dafny, and proves what they promise.

* **Sub-processes** (`Processes.dfy`, `ForkPool.dfy`): the wait loop that turns
  the exit statuses of all children into one result, its fail-fast signal and
  nested wait; and the pool that forks one child per database.
* **Work queue** (`WorkQueue*.dfy`, `LargeObjects.dfy`, `CompareData.dfy`): a
  supervisor forks N workers, queues one message per object, then one STOP per
  worker, and joins. The state machine `WorkQueue.State` with
  `Enabled`/`Fire` covers every interleaving, a bounded FIFO queue, failures of
  any process at any point, and the three users of the protocol: large objects,
  data comparison, FOREIGN KEY validation. The processes themselves are methods;
  a worker method returns the trace of protocol actions it went through.
* **FOREIGN KEYs** (`ForeignKey*.dfy`): the two-phase build (claim, ADD NOT
  VALID, hand back, post-data restore, VALIDATE, enable apply). A run is any
  sequence of `clone` and `copy fk-constraints` commands, cut by crashes between
  any two steps and resumed; the store is what survives. `ForeignKeyBuild.dfy`
  has the commands as methods over that state machine, and `ForeignKeyPhase.dfy`
  joins it to the work queue: many workers validate and mark, then the
  supervisor counts what is left.
* **Filter index** (`Filter*.dfy`): the passes that build the `filter` table
  under its partial unique key, and the two lookups that answer whether an
  archive item is filtered out, against a declarative definition over the
  catalogs.
* **Catalog setup and cache** (`CatalogSetup*.dfy`, `SectionCache.dfy`): the
  registration that every command and every worker repeats on one stored row,
  and the sections whose "fetched" flags are committed with their rows.
* **Loops** (`BatchInsert.dfy`, `CompareSchemas.dfy`): multi-row inserts within
  the parameter limit, and the comparison of two column lists.

Whatever is not pgcopydb's own logic is an arbitrary choice: the outcome of
each statement, fork, signal, `msgsnd` and `msgrcv`, the order in which children
end, which row an unordered LIMIT 1 returns, the rows the source gives. What
fails is counted (`Environment.dfy`), so that contracts also say what follows
when nothing does.

## What the proofs found

These follow the code where it differs from its comments. Each is a lemma with
the exact condition, or a concrete run.

* A worker that receives SIGQUIT leaves through a handler that exits with code
  zero (`signals.c:121-126`), which the wait loop takes for success: the
  supervisor can return true over large objects that were never committed, or
  tables without a checksum row (`QuitLosesLargeObject`, `QuitWithTaskInHand`;
  `CompleteExactly` says exactly when). The FOREIGN KEY supervisor is not fooled:
  after the join it counts what is left, and so a true return means that all is
  validated (`TrueMeansValidated`; `LeftExactly` says when the count finds
  something, `QuitIsCounted` is such a run).
* A clone resumed without `--fk-jobs` after its post-data restore enables apply
  over claimed FOREIGN KEYs that are still NOT VALID (`ResumedWithoutJobs`;
  `ClaimedRightExactly`). The comment at `cli_clone_follow.c:1085-1094` promises
  otherwise.
* A crash between recording an ADD and applying the constraint's comment loses
  the comment, since a resumed run skips what is recorded (`CommentLost`;
  `CommentExactly`).
* A claimed constraint that is not in the dump, because it was made after it,
  is lost when its ADD fails while the post-data restore is pending
  (`HandedBackToNobody`; `NeverLostExactly`).
* The post-data list is appended to: an entry left there by an interrupted clone
  without `--fk-jobs` is in the way of the next one with it, which claims and adds
  the same constraint (`StaleListInTheWay`; `CloneDatabase` says exactly when a
  clone succeeds if nothing fails).
* A STOP that the comparison or validation supervisor fails to send is gone
  past; the join then succeeds only when every worker that went without a STOP
  exited quietly (`SkippedStopExactly`, `SkippedStopSucceeds`).
* The row of a column default carries the name of its sequence, and filters out
  the SEQUENCE OWNED BY entry even when the owner is cloned
  (`DefaultTakesOwnedBy`, `ClonedOwnerLosesOwnedBy`; `OwnedByExactly`).
* A filter name that contains the text `SOURCE_FILTER_TYPE_NONE` lets a command
  replace one filter type by another (`TypeReplaced`; `TypeReplacedExactly`). It
  can also make a command that adopted a type be refused when it is run again,
  though the process whose specs the adoption rewrote, and the workers forked
  from it, are not (`RerunRefused`; `RegisterAgainExactly`).
* A command without filters that adopts the owner's filter type stores its own
  lists, so the owner cannot register again unless they are equal
  (`OwnerRefused`; `OwnerAfterAdoption`).
* Filters are stored before the rows fetched without them are looked for and
  deleted; when that fails, a retry is accepted and the stale rows stay until the
  catalogs are started anew (`StaleRows`; `RetryKeepsStaleRowsExactly`,
  `StaleExactly`, `StaleForever`).

## Model

| member | source | states |
|---|---|---|
| `Processes.ProcessGroup.WaitForSubprocesses` | src/bin/pgcopydb/copydb.c:742-825 | every child is reaped, and the result is true if and only if each ended with code zero or was killed by HUP, INT, QUIT or TERM; a fail-fast signal and its nested wait happen exactly when one was not, and never change the answer |
| `Processes.ProcessGroup.FatalExit` | src/bin/pgcopydb/copydb.c:715-734 | one signal to the group, then a wait for all the children that cannot come back here, or no wait when the signal was not sent; after the wait, true if and only if each child ended with code zero or by one of those four signals |
| `Processes.AcceptedExactly` | src/bin/pgcopydb/signals.c:209-220 | which ends of a process are taken for a success: code zero, or death by signals 1, 2, 3 and 15 |
| `WorkQueue.InvStep` | src/bin/pgcopydb/blobs.c:186-263 | every event of every process keeps the accounts: the queue is the unread segment of the message program, tasks received by all workers are exactly those delivered, the target holds exactly what committed workers did |
| `WorkQueue.RunInv` | src/bin/pgcopydb/blobs.c:186-492 | the accounts hold in every reachable state, for any N, any queue capacity and any failures |
| `WorkQueueTurns.EachWorkerIsAProcess` | src/bin/pgcopydb/blobs.c:331-492 | in any interleaving each worker's record is where its own sequence of actions and received messages leads a new process, so results about one process apply to each |
| `WorkQueueSafety.HandedOnce` | src/bin/pgcopydb/blobs.c:386-469 | with distinct objects, an object is received at most once, by at most one worker, in every reachable state |
| `WorkQueueSafety.NeverTwoAtWork` | src/bin/pgcopydb/fkeys.c:877-886 | no two workers are ever at work on the same object |
| `WorkQueueSafety.OnlyCommittedCounts` | src/bin/pgcopydb/blobs.c:405-419 | a large object in the target was copied by a worker that committed; an uncommitted copy never counts |
| `WorkQueueSafety.SuccessIsComplete` | src/bin/pgcopydb/blobs.c:186-263 | over every interleaving with failures anywhere, if the supervisor returns true and nobody exited quietly, the target holds each object as often as it was queued |
| `WorkQueueSafety.DoneByOneWorker` | src/bin/pgcopydb/blobs.c:331-492 | in every reachable state, with distinct objects, what counts in the target was carried out once, by one worker, and received by no other |
| `WorkQueueSafety.SuccessByExactlyOne` | src/bin/pgcopydb/blobs.c:186-492 | hence after a true return without quiet exits each object was carried out by one worker that finished |
| `WorkQueueSafety.CompleteExactly` | src/bin/pgcopydb/copydb.c:779-790 | all three users of the protocol, any run: after a join that succeeds the target is complete if and only if everything was delivered and each worker that exited quietly had lost nothing (received nothing, where only a commit counts; carried out all it received, elsewhere) |
| `WorkQueueSafety.JoinExactly` | src/bin/pgcopydb/copydb.c:779-790 | the join succeeds if and only if every worker ended with code zero, or by HUP, INT, QUIT or TERM |
| `WorkQueueSafety.KilledNeverSucceeds` | src/bin/pgcopydb/copydb.c:779-808 | over every run: a worker killed by any other signal, or with any other code, keeps the supervisor from ever returning true |
| `WorkQueueSafety.LargeObjectsCompleteExactly` | src/bin/pgcopydb/blobs.c:398-419 | for large objects: if and only if each worker that exited quietly had received nothing and some worker committed (or there was nothing to copy) |
| `WorkQueueRuns.QuitLosesLargeObject` | src/bin/pgcopydb/signals.c:117-126 | a run in which SIGQUIT makes the only worker exit with zero after its copy: the supervisor returns true over an empty target |
| `WorkQueueRuns.QuitWithTaskInHand` | src/bin/pgcopydb/signals.c:117-126 | the same for the large objects and for the comparison, with an object in hand: a true return without the large object, or without the checksum row |
| `WorkQueueSafety.NoDuplicateKey` | src/bin/pgcopydb/catalog.c:3972-4035 | the plain INSERT of a checksum row never finds its key taken |
| `WorkQueueSafety.OneChecksumExactly` | src/bin/pgcopydb/compare.c:83-125 | for every interleaving, a comparison that returns true leaves exactly one checksum row per table if and only if every table was delivered and each worker that exited quietly had carried out all it received |
| `WorkQueueSafety.SkippedStopExactly` | src/bin/pgcopydb/compare.c:152-165 | when STOPs could not be sent, at least as many workers end without one, and the join succeeds if and only if all of these exited quietly and the others left well |
| `WorkQueueSafety.SkippedStopNeverSucceeds` | src/bin/pgcopydb/compare.c:152-165 | hence never, in a run without quiet exits |
| `WorkQueueRuns.SkippedStopSucceeds` | src/bin/pgcopydb/compare.c:152-165 | a run that skips its STOP and returns true, its worker having exited on SIGQUIT |
| `WorkQueueLiveness.QueuedStopsBounded` | src/bin/pgcopydb/blobs.c:525-548 | STOPs in the queue never outnumber the workers still to stop |
| `WorkQueueLiveness.MeasureDecreases` | src/bin/pgcopydb/blobs.c:386-469 | each event of a run without failures decreases a measure of unforked workers, unsent and queued messages and pending worker steps |
| `WorkQueueLiveness.NeverStuck` | src/bin/pgcopydb/blobs.c:525-548 | without failures, with N and capacity at least one, every state short of the end can move |
| `WorkQueueLiveness.GoodRunsEndWell` | src/bin/pgcopydb/blobs.c:186-263 | such runs are finite, and end with true, an empty queue, every worker stopped with code zero, and every object in the target |
| `LargeObjects.QueueLargeObjectMetadata` | src/bin/pgcopydb/blobs.c:554-643 | true if and only if no statement and no send failed; the nested fetch loops over one reused buffer then queued every row of the cursor once, in order, and counted them; a failure leaves a prefix |
| `LargeObjects.SendStop` | src/bin/pgcopydb/blobs.c:525-548 | true if and only if no send failed: one STOP per worker, or a prefix |
| `LargeObjects.SendProgram` | src/bin/pgcopydb/blobs.c:227-243 | the two loops together put the message program of the protocol on the queue, or a prefix of it, and true means all of it |
| `LargeObjects.Handle` | src/bin/pgcopydb/blobs.c:386-469 | one message, with each failure point: the actions taken are legal ones of the protocol, and it ends well if and only if nothing failed |
| `LargeObjects.Worker` | src/bin/pgcopydb/blobs.c:331-492 | whatever fails, the process is a protocol worker that took a prefix of its messages; it succeeds if and only if nothing fails and tasks, then a STOP, are what it receives, and then it has committed, and took exactly the tasks it copied and one STOP |
| `CompareData.QueueTables` | src/bin/pgcopydb/compare.c:140-198 | true if and only if no signal came, and no send failed before every table was queued: each once, in order, before any STOP; a STOP that fails is gone past, so success leaves one STOP less per failed send; on an empty queue each message sent is that of the protocol's program, short of the STOPs skipped |
| `ForeignKeys.InvStep` | src/bin/pgcopydb/fkeys.c:133-175 | the store's invariant is kept by each step of a command, by a crash between any two, and by the next command |
| `ForeignKeys.RunInv` | src/bin/pgcopydb/cli_clone_follow.c:1048-1115 | ... hence in every reachable state of every sequence of commands |
| `ForeignKeys.PostDataComplete` | src/bin/pgcopydb/dump_restore.c:81-130 | when the post-data restore completes, every archive entry is on the target: the list has exactly the entries nobody claims, and all claimed ones were added |
| `ForeignKeySafety.NoFkLost` | src/bin/pgcopydb/cli_clone_follow.c:1048-1083 | over all runs, a clone that succeeds has every archive constraint on the target, and with --fk-jobs every claimed one, except one handed back to an archive without it |
| `ForeignKeyRuns.NeverLostExactly` | src/bin/pgcopydb/cli_clone_follow.c:1053-1067 | a claimable constraint is on the target after every successful clone with --fk-jobs, whatever ran, failed and crashed, if and only if the archive has it |
| `ForeignKeySafety.NeverMoreThanTheSource` | src/bin/pgcopydb/fkeys.c:629-642 | in every reachable state a constraint NOT VALID on the source stays so, no comment is invented, and apply is never enabled while an archive constraint is missing |
| `ForeignKeySafety.ClaimedRightExactly` | src/bin/pgcopydb/cli_clone_follow.c:1085-1115 | when a clone succeeds or enables apply, a claimed constraint is in place and validated as on the source if and only if --fk-jobs was given, or its entry was still to be restored, or it was right at the start |
| `ForeignKeySafety.CommentExactly` | src/bin/pgcopydb/fkeys.c:605-738 | with --fk-jobs, after a successful clone the comment of a claimed constraint is there if and only if this command added the constraint, or a left-over list rebuilt it, or it was there |
| `ForeignKeyRuns.ResumedWithoutJobs` | src/bin/pgcopydb/fkeys.c:133-149 | a resumed clone without --fk-jobs enables apply over a NOT VALID constraint |
| `ForeignKeyRuns.CommentLost` | src/bin/pgcopydb/fkeys.c:725-738 | a crash between the record of the ADD and the comment loses the comment |
| `ForeignKeyRuns.HandedBackToArchive` | src/bin/pgcopydb/fkeys.c:688-722 | for any source: a clone makes the dump and is interrupted, the next one claims every constraint, every ADD fails, and it succeeds with the archive alone |
| `ForeignKeyRuns.HandedBackToNobody` | src/bin/pgcopydb/fkeys.c:688-722 | that run at one constraint made after the dump: the clone succeeds without it |
| `ForeignKeyRuns.StaleListInTheWay` | src/bin/pgcopydb/dump_restore.c:757-771 | a clone without --fk-jobs is interrupted after it listed a constraint; the next, with --fk-jobs, is one that fails though no statement of its own does |
| `ForeignKeyQueue.CoveredByOneMessage` | src/bin/pgcopydb/catalog.c:7688-7770 | each constraint still to validate is covered by exactly one message of the work list |
| `ForeignKeyQueue.NoLockConflict` | src/bin/pgcopydb/fkeys.c:877-886 | two workers at work never hold constraints of one referencing table |
| `ForeignKeyQueue.ValidatedExactly` | src/bin/pgcopydb/fkeys.c:274-402 | when the supervisor has joined its workers with success, and is about to count, the table of every pending constraint went through its VALIDATE if and only if every table was delivered and each worker that exited quietly had carried out all it received |
| `ForeignKeyQueue.ValidatedByOneWorker` | src/bin/pgcopydb/fkeys.c:274-395 | in every reachable state a table that did went through exactly one worker |
| `ForeignKeyPhase.PhaseIsARun` | src/bin/pgcopydb/fkeys.c:274-453 | however many workers share the phase, and however they interleave and end, it is a run of the command's own machine, so what holds over all runs of commands holds with them |
| `ForeignKeyPhase.PhaseRunInv` | src/bin/pgcopydb/fkeys.c:1073-1145 | in every reachable state a row is only changed by being marked, after its table was received, and a table that a worker carried out has nothing left |
| `ForeignKeyPhase.TrueMeansValidated` | src/bin/pgcopydb/fkeys.c:416-453 | over every run, quits and undelivered tables included, a true return means that each claimed constraint is added and is marked, and on the target valid, as on the source |
| `ForeignKeyPhase.LeftExactly` | src/bin/pgcopydb/catalog.c:7101-7144 | after a join that succeeds the count finds something left if and only if a table was not delivered or a worker that exited quietly left a constraint of one of its tables unmarked |
| `ForeignKeyPhase.NothingLeftWithoutQuits` | src/bin/pgcopydb/fkeys.c:391-441 | so where nobody exited quietly the count finds nothing |
| `ForeignKeyPhaseRuns.QuitIsCounted` | src/bin/pgcopydb/fkeys.c:416-441 | a clone whose only worker exits on SIGQUIT with its table in hand: the join succeeds, and the supervisor can only return false |
| `ForeignKeyBuild.Session.Add` | src/bin/pgcopydb/fkeys.c:605-722 | ADD CONSTRAINT: exactly the added, duplicate, handed-back or error outcome of the protocol |
| `ForeignKeyBuild.Session.AddNotValid` | src/bin/pgcopydb/fkeys.c:464-534 | true if and only if no constraint of the list ended in an error, and then every row left is added; when no statement fails it is true, and exactly the constraints of the list are new on the target and recorded; nothing happens when the phase is skipped |
| `ForeignKeyBuild.Session.WriteRestoreList` | src/bin/pgcopydb/dump_restore.c:700-788 | appends archive entries that are not claimed, and ends with each archive entry listed or claimed |
| `ForeignKeyBuild.Session.FinalizeSchema` | src/bin/pgcopydb/dump_restore.c:625-680 | nothing happens when it was done at the start; otherwise true if and only if nothing fails and, without --clean, nothing of the list is on the target; then everything listed is built as dumped, every archive entry being listed or claimed |
| `ForeignKeyBuild.Session.TryValidate` | src/bin/pgcopydb/fkeys.c:1216-1271 | one constraint is attempted until it works: unless a signal or a lost connection ends that, it fails only when it is not on the target or every attempt fails |
| `ForeignKeyBuild.Session.ValidateOne` | src/bin/pgcopydb/fkeys.c:1160-1321 | a row to validate, whose constraint is on the target, ends valid unless every attempt fails, and is marked when nothing fails; no other row or constraint changes, and neither does one NOT VALID on the source |
| `ForeignKeyBuild.Session.ValidateAll` | src/bin/pgcopydb/fkeys.c:274-453 | nothing happens when the phase is skipped; otherwise true means that nothing is left to add or validate, and the phase is recorded as done; when nothing fails it is true if and only if each constraint to validate is on the target, and each of these ends validated and marked |
| `ForeignKeyBuild.Session.CloneDatabase` | src/bin/pgcopydb/cli_clone_follow.c:978-1115 | on success, whatever ran and crashed before, every archive constraint is on the target, with --fk-jobs each claimed one is right, and with --follow apply is enabled; when nothing fails, it succeeds if and only if post-data was done before, or --clean is given, or nothing it is going to restore is on the target or added by itself; always on a first run |
| `ForeignKeyBuild.Session.CreateFkConstraints` | src/bin/pgcopydb/cli_copy.c:562-610 | on success nothing is left to add or validate; nothing is ever handed back; when nothing fails, it succeeds if and only if each constraint added before, and still to validate, is still on the target |
| `FilterIndex.InsertExactly` | src/bin/pgcopydb/catalog.c:8396-8507 | the plain insert succeeds if and only if its rows fit under the partial unique key |
| `FilterIndex.InsertOrIgnoreFind` | src/bin/pgcopydb/catalog.c:551 | insert or ignore keeps the key; the old row wins, then the first new one |
| `FilterIndex.DeleteKeepsKey` | src/bin/pgcopydb/catalog.c:8611-8632 | the delete pass keeps the key |
| `FilterRules.BaseUniqueExactly` | src/bin/pgcopydb/catalog.c:8396-8507 | the first pass succeeds if and only if oids are unique within pg_class and pg_constraint and one attroid has one name |
| `FilterRules.PreparedFind` | src/bin/pgcopydb/catalog.c:8383-8660 | after all passes the key still holds, and each key has the row of the highest-ranking selection: base, dependency, extension rule, collation |
| `FilterRules.EntryExactly` | src/bin/pgcopydb/catalog.c:8383-8660 | which keys the finished table has, and when the row is an extension or a collation, over the catalogs alone |
| `FilterNames.EntryNameExactly` | src/bin/pgcopydb/catalog.c:8383-8660 | which name the row under a key carries, over the catalogs alone: of several dependencies or collations under one key, the first |
| `FilterDecision.FilterTable.PrepareFilter` | src/bin/pgcopydb/catalog.c:8383-8660 | the passes as statements on a table: exactly the prepared rows, or failure and nothing |
| `FilterDecision.FilterTable.LookupByOid` | src/bin/pgcopydb/catalog.c:8669-8798 | succeeds if and only if at most one row matches, and leaves the result alone when none does |
| `FilterDecision.FilterTable.IsFilteredOut` | src/bin/pgcopydb/copydb_schema.c:1208-1285 | the answer of the two lookups over one reused result is that of the table's rows; what the first lookup leaves never makes a match |
| `FilterDecision.LimitOneExactly` | src/bin/pgcopydb/catalog.c:8818-8832 | the row that LIMIT 1 picks never matters if and only if the rows of that name agree, or the answer is settled before |
| `FilterResults.LimitOneOverCatalogs` | src/bin/pgcopydb/catalog.c:8806-8877 | over the catalogs: that row never matters if and only if objects of the name do not speak both for and against the item, or it is not asked by name, or its oid settles the answer |
| `FilterResults.AtMostOneExactly` | src/bin/pgcopydb/catalog.c:12036-12107 | the one-row check never trips under a full key, and trips for an oid alone exactly when two catalogs filter it out |
| `FilterResults.NamesExactly` | src/bin/pgcopydb/catalog.c:8806-8877 | the finished table has a row of a name that may, or may not, stand for an item exactly when the catalogs have such an object |
| `FilterResults.SomePickExactly` | src/bin/pgcopydb/copydb_schema.c:1208-1285 | for every archive item, some choice of LIMIT 1 filters it out if and only if the declarative definition over the catalogs does |
| `FilterResults.EveryPickExactly` | src/bin/pgcopydb/copydb_schema.c:1208-1285 | ... and every choice does if and only if, besides, it is by its oid, or no extension or collation of its name speaks against it |
| `FilterResults.AnswerExactly` | src/bin/pgcopydb/copydb_schema.c:1208-1285 | so the answer is the declarative definition wherever the objects of that name agree |
| `FilterResults.SelectedSequenceKept` | src/bin/pgcopydb/copydb_schema.c:1250-1265 | a SEQUENCE of the source selection is never filtered out, whatever other rows mention it |
| `FilterResults.SkippedSequenceFiltered` | src/bin/pgcopydb/catalog.c:8447-8456 | every other SEQUENCE of the filter catalog is |
| `FilterResults.OwnedByExactly` | src/bin/pgcopydb/catalog.c:8458-8478 | over the catalogs: when a SEQUENCE OWNED BY entry is filtered out for some choice of LIMIT 1, and when for every choice |
| `FilterResults.OwnedByFiltered` | src/bin/pgcopydb/catalog.c:8458-8478 | it is whenever the owner table is not cloned |
| `FilterResults.DefaultTakesOwnedBy` | src/bin/pgcopydb/catalog.c:8480-8492 | it is also when the sequence has a column default, whatever its owner |
| `FilterResults.ClonedOwnerLosesOwnedBy` | src/bin/pgcopydb/catalog.c:8480-8492 | one sequence whose owner is cloned, and whose SEQUENCE OWNED BY entry is filtered out |
| `FilterResults.ExtensionExactly` | src/bin/pgcopydb/catalog.c:8533-8632 | the five extension passes amount to one rule, with include-only over exclude, for entries described as EXTENSION or not at all; no other entry is filtered out by an extension's oid |
| `FilterResults.CollationExactly` | src/bin/pgcopydb/copydb_schema.c:1178-1202 | a collation's entry is filtered out if and only if collations are skipped, and an entry of any other description never by a collation's oid |
| `FilterResults.KindsExactly` | src/bin/pgcopydb/copydb_schema.c:1178-1202 | for every catalog, oid and description: an extension's row speaks for EXTENSION entries only, a collation's for COLLATION entries only, any other row for all entries; without a description, each speaks for it |
| `FilterResults.NameKindsExactly` | src/bin/pgcopydb/copydb_schema.c:1178-1202 | the same for entries known by a name that one kind of object has, whichever row LIMIT 1 picks |
| `CatalogSetup.Catalogs.RegisterSetup` | src/bin/pgcopydb/catalog.c:900-1459 | the registration, statement by statement with any of them failing, computes the registration function; when none fails, that is its value where none does |
| `CatalogSetupRules.RegisterExactly` | src/bin/pgcopydb/catalog.c:1016-1411 | when no statement fails, a command is accepted over a stored setup if and only if the source is the same or not checked, the targets do not differ, no other snapshot is stored or it is not checked, the split values are the same once parts were fetched, and the filters are equal, or unowned, or on one side only |
| `CatalogSetupRules.FiltersFitPlainly` | src/bin/pgcopydb/catalog.c:1211-1411 | without the marker text in a name, filters on one side only means that one of the two has none |
| `CatalogSetupRules.RefusedExactly` | src/bin/pgcopydb/catalog.c:1016-1174 | a command that does not fit is refused whatever works, and writes nothing; only one refused for its split values or filters may have stored its snapshot, where there was none |
| `CatalogSetupRules.FirstStores` | src/bin/pgcopydb/catalog.c:948-997 | what the first call stores, field by field |
| `CatalogSetupRules.LaterStores` | src/bin/pgcopydb/catalog.c:998-1411 | what a later call that is accepted stores and keeps, field by field, and which filters the command goes on with |
| `CatalogSetupRules.EntriesStored` | src/bin/pgcopydb/catalog.c:1421-1443 | the extension entries after an accepted call: its own over what was there, or over nothing when the filter catalog was started anew |
| `CatalogSetupRules.FetchStores` | src/bin/pgcopydb/copydb_schema.c:40-98 | a fetch after an accepted registration fills the tables once, under the filters the command goes on with |
| `CatalogSetup.Catalogs.RegisterFiltersOf` | src/bin/pgcopydb/catalog.c:1176-1411 | the comparison of the filters, with all its cases |
| `CatalogSetup.Catalogs.AddExtensionFilters` | src/bin/pgcopydb/catalog.c:1421-1443 | the entries are written in order, up to the first failure |
| `CatalogSetupSafety.SourceAndSnapshotWriteOnce` | src/bin/pgcopydb/catalog.c:962-1104 | over any sequence of registrations, failed or not, source and non-empty snapshot never change |
| `CatalogSetupSafety.FilterTypeClimbs` | src/bin/pgcopydb/catalog.c:1176-1411 | the stored type goes from NULL to none to one real type, which stays, when no filter name holds the marker text |
| `CatalogSetupSafety.TypeReplacedExactly` | src/bin/pgcopydb/catalog.c:1211-1212 | without that assumption, exactly when one registration replaces a real type by another |
| `CatalogSetupSafety.TypeReplaced` | src/bin/pgcopydb/catalog.c:1211-1212 | one such registration: a stored filter names a table like the marker |
| `CatalogSetupAgain.ExtensionsValue` | src/bin/pgcopydb/catalog.c:1421-1443 | what the extension entries end as: include-only, else exclude, else what was there |
| `CatalogSetupAgain.RegisterAgainExactly` | src/bin/pgcopydb/catalog.c:900-1459 | after a success, a second call by the same process succeeds and changes nothing but an unset snapshot from NULL to empty; one by a process with the original specs does too, if and only if the first call did not adopt another type for a command whose filter names hold the marker text |
| `CatalogSetupAgain.RerunRefused` | src/bin/pgcopydb/catalog.c:1399-1411 | one command that is refused when it is run again |
| `CatalogSetupAgain.OwnerAfterAdoption` | src/bin/pgcopydb/catalog.c:1337-1397 | adoption keeps the owner's type; the owner registers again if and only if the adopter's lists equal its own |
| `CatalogSetupAgain.OwnerRefused` | src/bin/pgcopydb/catalog.c:1337-1397 | one owner that is refused |
| `CatalogSetupSafety.RetryKeepsStaleRowsExactly` | src/bin/pgcopydb/catalog.c:1236-1320 | when filters are introduced over rows, a second call is accepted whatever became of the deletion, and the rows are still there if and only if the first call could not look for them, or not delete them |
| `CatalogSetupSafety.StaleExactly` | src/bin/pgcopydb/catalog.c:1211-1320 | over any sequence of commands: the rows were fetched under filters of the stored type, or else they are stale, which they are if and only if some command introduced filters over them and could not look for them, or not delete them |
| `CatalogSetupSafety.StaleForever` | src/bin/pgcopydb/catalog.c:1211-1320 | rows that are stale stay so under every later command |
| `CatalogSetupSafety.StaleRows` | src/bin/pgcopydb/catalog.c:1236-1320 | one failed deletion, and the retry that takes over the rows |
| `SectionCache.Cache.FetchSchema` | src/bin/pgcopydb/copydb_schema.c:480-680 | the fetch commits all of its transaction or nothing, wherever it stops, and is true if and only if nothing failed; a command that finds its section there, or all of them, does nothing |
| `SectionCache.FetchedExactly` | src/bin/pgcopydb/copydb_schema.c:514-640 | for each request, which sections a committed fetch adds: all but those skipped or not enabled, or one section with those it reads, and no more |
| `SectionCache.LoadsInOrder` | src/bin/pgcopydb/copydb_schema.c:554-615 | over every sequence of commands, schemas are loaded before anything in them, and tables before their FOREIGN KEYs |
| `SectionCache.FlagsMatchRows` | src/bin/pgcopydb/copydb_schema.c:514-663 | over every sequence of commands cut anywhere, a section's flag holds if and only if its rows were loaded, at most once |
| `SectionCache.RowsBeforeFlag` | src/bin/pgcopydb/copydb_schema.c:620-652 | between the rows and the flag of a section they do not match: only the transaction keeps that from being seen |
| `SectionCache.AskingAgainLoadsNothing` | src/bin/pgcopydb/copydb_schema.c:199-276 | a committed fetch has what was asked for, and the same request again loads nothing |
| `BatchInsert.NumberInjective` | src/bin/pgcopydb/catalog.c:5731-5769 | distinct cells of a batch have distinct parameter numbers |
| `BatchInsert.NumberOnto` | src/bin/pgcopydb/catalog.c:5731-5769 | every parameter number of a batch is some cell's placeholder |
| `BatchInsert.Statement.Bind` | src/bin/pgcopydb/catalog.c:5766-5784 | binding a row sets its own parameters and no other row's |
| `BatchInsert.Database.AddBatch` | src/bin/pgcopydb/catalog.c:5694-5794 | for any count and any limit it ends, no statement is over the limit, and its effect is one insert per row, in order, with the fewest statements; true if and only if no statement failed and a row fits the limit, or there is none |
| `BatchInsert.NeededIsLeast` | src/bin/pgcopydb/catalog.c:5713-5724 | no fewer statements of that size hold the rows |
| `BatchInsert.BindConstraints` | src/bin/pgcopydb/catalog.c:6130-6166 | the rescan binds exactly the next constraint-bearing entries; the early exit on exhausted input is unreachable |
| `BatchInsert.AddConstraintBatch` | src/bin/pgcopydb/catalog.c:6041-6182 | across batches and rescans, exactly the constraint-bearing entries, in order, once each, with the fewest statements; true if and only if no statement failed and a row fits the limit, or there is none |
| `BatchInsert.AddOneByOne` | src/bin/pgcopydb/catalog.c:5627-5685 | the loop of single inserts that the batch refines has the same effect, or a prefix up to its first failure |
| `ForkPool.Pool.WaitAnyChild` | src/bin/pgcopydb/compare.c:1085-1109 | a failed wait reaps nothing; otherwise one child is reaped, and counts as well only with code zero |
| `ForkPool.Pool.RunAll` | src/bin/pgcopydb/compare.c:1445-1505 | ok if and only if no signal, no failed fork, no failed wait and every child ended with code zero, and then every database was forked once, in order, and reaped; children left on return are exactly one per failed wait, and those above the bound at most that many |
| `CompareSchemas.CompareTable` | src/bin/pgcopydb/compare.c:686-745 | the differences are the source columns that the target does not have, plus one when the numbers of columns differ; with distinct names: none if and only if both sides have the same columns |
| `CompareSchemas.SameColumns` | src/bin/pgcopydb/compare.c:699-734 | the pigeonhole argument that makes looking from source to target enough |

## Left out

- `CatalogSetupSafety.FilterTypeClimbs`: assumes that no filter name contains the marker text; the exact effect of such a name is `TypeReplacedExactly`.
- `CatalogSetupSafety.SourceAndSnapshotWriteOnce`: is about registrations; `follow.c:116` also overwrites the snapshot after it creates a replication slot.
- `SectionCache.FlagsMatchRows`: is about one process at a time on a source catalog that is never invalidated, and not about the table-parts flag, which `cli_list.c:1415-1428` registers after splitting a single table; the filter catalog's own sections are not part of it.
- `ForeignKeySafety.NoFkLost`: does not model `DROP ... CASCADE` by the pre-data restore under --drop-if-exists, nor worker processes that outlive a supervisor that returned early, nor `--restart`; the archive and the claimable constraints agree where they overlap.
- `ForeignKeyBuild.Session.ValidateAll`: validates the rows one after the other in one process; the worker processes and their interleavings are those of `ForeignKeyPhase`.
- `ForeignKeyPhase.TrueMeansValidated`: workers that outlive a supervisor that returned false do nothing more to the store.
- `WorkQueue.RunInv`: delivery by the System V queue is FIFO and loses nothing, and one message is received by one process.
- `LargeObjects.Worker`: opening the catalogs and connections is one step that may fail; the data copied is not modelled.
- `BatchInsert.Database.AddBatch`: rows are sequences of values, so the list of columns of each table is not modelled.
- `CatalogSetup.Catalogs.RegisterSetup`: the invalidation is a choice of outcomes, and a result on what happens when no statement fails says nothing of whether it can succeed: the delete statements at `catalog.c:11157` and `catalog.c:11164` name tables that the source catalog does not create.
- Complement filter types are not among the types registered: `copydb_schema.c:1416-1609` sets one while it fetches the filtered oids, and restores the type on every way out.
- `CatalogSetupAgain.RegisterAgainExactly`: no statement of the second call fails.
- `CatalogSetupSafety.StaleForever`: is about commands that keep the catalogs; `--restart`, and `list --force` which implies it (`cli_list.c:2137`), start them anew.
- `CatalogSetupSafety.StaleExactly`: is about filters whose names do not hold the marker text, and about the type of the filters; after an adoption the lists of the stored filters need not be those the rows were fetched under.
- `FilterResults.SomePickExactly`: assumes the five catalog names are distinct, oids are unique within pg_class, pg_constraint and pg_extension, and one attroid has one name.
- `FilterResults.SelectedSequenceKept`: assumes, as oids are unique within pg_class, that no table, materialized view or index of the filter catalog has the sequence's oid.
- `FilterResults.OwnedByFiltered`: assumes that no extension or collation of the table has the restore name of the sequence, which `FilterResults.OwnedByExactly` shows to be needed.
- `FilterDecision.FilterTable.PrepareFilter`: each statement succeeds but for the key; the attached source catalog is an input, not claimed to equal the rows just fetched.
- The worker of the data comparison and of the validation as methods: they would repeat `LargeObjects.Worker` with fewer failure points; their transitions are in the protocol.
- Table and index copy, VACUUM, sequences, logical decoding and its catalogs, sentinel positions, option parsing, printing, timing: not modelled.
- SQLite retries and semaphores, libpq, `pg_dump` and `pg_restore`: foreign calls, modelled by their outcomes.
