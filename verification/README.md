# The durability layer of quizdom, modelled and proved

quizdom keeps its domain graph in a Dolt repository, its session history in a directory, and one
diagnostic log that every process appends to. This project models the code that decides which
rows are committed, batched, migrated, backed up and logged, and proves what that code is for.
`dafny verify dfyconfig.toml` checks all of it.

## The parts

- **The write seam** (`WriteSeam`, `Commands`, `DoltRepository`). HEAD, staged and working roots,
  the marker that remembers what quizdom staged, and the commit log. `WriteSeam` is a state machine
  over the steps of quizdom, of a user at the same repository, and of crashes; `Repository` is the
  same seam as methods. Every command method also yields the machine steps it took (`Commands`), so
  what holds of every run of the machine holds of every history of commands. Dolt's hash of a root
  is modelled by the root itself.
- **The store** (`Tables`, `Chunking`, `SqlText`, `SqlStatements`, `SqlGrammar`, `SqlReading`,
  `StoreReads`, `Ordering`, `StoreWrites`, `Minting`). Two tables with the schema's keys and checks, the
  statements sent to them, the text those statements are printed as and how the engine reads it
  back, and the batched forms against the loops they replace. What a method sends is text; what
  runs is what the engine understands by it.
- **The migration** (`Reachability`, `Migration`, `MigrationRun`). The import, the parity gate in
  front of its commit, and the spot-check's two walks.
- **The backup** (`FileTree`, `UsersMirror`, `BackupPosition`, `ShellWord`). The session mirror
  one system call a step, the graph push and the retirement of a foreign lineage, and the
  question a session ends on.
- **The log** (`LogRotation`, `LogText`). Rotation under a lock with any number of writers, and
  the printable line both ends of the log agree on.
- **The quote scanner** (`QuoteScanner`) of the markdown view.

`Text` and `Wrappers` are shared.

## Properties that hold only under a condition

Each condition is proved exact, and a concrete case is given where the property fails.

- A change to another table already staged at the pre-flight goes into quizdom's commit; nothing
  else of another table ever does (`WriteSeam.OtherTables`, `WriteSeam.StagedOtherTableIsCarried`).
- A user edit inside a run changes what the run commits if and only if the run still has a staging
  write to make and its statements come out differently on the edited rows
  (`WriteSeam.EditsInsideARun`, `WriteSeam.EditInsideARunIsCarried`). `WriteSeam.Provenance` is
  about runs in which the user acts between quizdom's runs.
- A commit starts from rows that are not its pre-flight's HEAD only by taking up a root that an
  earlier run staged and recorded (`WriteSeam.Provenance`). The marker vouches for that content,
  not for who put it there last or when (`WriteSeam.RecordedContentIsTakenUp`).
- Passing the parity gate proves the tables are exactly the export if and only if the aida
  listings repeat nothing (`Migration.ParityProvesExactness`, `Migration.DuplicateHidesExtra`).
- The walk and the recursive query agree on a root if and only if it is no longer than the 64
  characters it is cast to (`Reachability.WalkEqualsCte`, `Reachability.LongRootIsCut`); the query
  aborts if and only if something lies deeper than its limit (`Reachability.CteIsReachability`,
  `Reachability.LongChainAborts`).
- A minted id is new unless the highest suffix is the last 64-bit number and the wrapped-around
  id is taken (`Minting.MintedIsNew`, `Minting.LastNumberCollides`; the sum wraps as a release
  build's does).
- The batched re-weight equals the loop whenever the loop succeeds. It also succeeds in some cases
  where the loop stops, described exactly (`StoreWrites.BatchAgreesWithLoop`,
  `StoreWrites.CorrectedEntryOnlyStopsTheLoop`).
- Over a HEAD that is pushed with an edit pending on top, the session's closing line is silent if
  and only if the probe read the two hashes and not the count of pending changes: the code takes an
  unreadable count for zero
  (`BackupPosition.SilenceMeansBackedUp`, `BackupPosition.UnreadableCountIsSilent`).
- The line that an opted-in backup failed says the graph is still unbacked-up. When the push landed
  and only the session mirror failed, it is backed up (`BackupPosition.BackupHost.SessionEnd`).
- The comment above `mirror_users` (crates/quizdom/src/db_backup.rs:720-729) says a concurrent
  restore sees the old backup or the new one. It never sees a partial one; but from the first
  rename until the second, or until the old copy is put back, the path is absent
  (`UsersMirror.AbsentExactlyInGap`), also after a crash there (`UsersMirror.KilledBetweenRenames`),
  and a restore then reports nothing to restore (`UsersMirror.RestoreInGap`).

## Model

| member | source | states |
|---|---|---|
| `WriteSeam.Provenance` | crates/quizdom/src/db_init.rs:433-514 | In every run of user edits, `dolt add`, resets, user commits, snapshots, crashes, failures and quizdom writes, each quizdom-labelled commit was made by a run on the HEAD its own pre-flight saw, and its rows are that run's own statements, all of them in order, applied to HEAD's rows or to a root an earlier run staged and recorded, which came about in the same way; its other tables are those staged at the pre-flight. |
| `WriteSeam.InvHolds` | crates/quizdom/src/db_init.rs:490-580 | The invariant behind it, at every moment of every run: the marker names a root some run's staging write made and recorded; inside a run, the working rows are the run's own statements applied to what its pre-flight saw staged, HEAD has not moved, nor has the staging of other tables. |
| `WriteSeam.InvStep` | crates/quizdom/src/db_init.rs:490-580 | One enabled step of quizdom, of the user or of a crash keeps that invariant. |
| `WriteSeam.LogGrows` | crates/quizdom/src/db_init.rs:847-912 | A step adds at most one commit, and only a run's commit step adds one under quizdom's name. |
| `WriteSeam.RecordedContentIsTakenUp` | crates/quizdom/src/db_init.rs:433-514 | The concrete run in which the marker vouches for content the user typed again: a run dies recorded, the user resets, commits otherwise, and stages the recorded rows by hand; the next run takes them up and its commit, with no statement of its own, undoes the user's. |
| `WriteSeam.OtherTables` | crates/quizdom/src/db_init.rs:660-669 | A quizdom commit carries for other tables exactly what was staged for them at its pre-flight, so it changes another table if and only if a change to it was already staged then. |
| `WriteSeam.StagedOtherTableIsCarried` | crates/quizdom/src/db_init.rs:490-514 | The concrete run in which the pre-flight, which asks about `nodes` and `edges` only, lets a user's own staged table into a quizdom commit. |
| `WriteSeam.EditInsideARunIsCarried` | crates/quizdom/src/db_init.rs:660-669 | Why the user acts between runs: an edit made between a pre-flight and its staging write is committed under quizdom's name and no run accounts for the commit. |
| `WriteSeam.EditsInsideARun` | crates/quizdom/src/db_init.rs:838-859 | Which edits inside a run do harm: wherever the edit falls, it changes what the run commits if and only if a staging write is still to come and the statements up to the last one come out differently on the edited rows; after the last staging write it is never swept in. |
| `WriteSeam.RestOfRun` | crates/quizdom/src/db_init.rs:660-689 | What the rest of a run makes of any working set: the rows, and the staged root, statement by statement. |
| `WriteSeam.RecordedRunIsResumed` | crates/quizdom/src/db_init.rs:433-514 | A run that dies, or whose commit fails, after a recorded batch is accepted by the next pre-flight, whatever came before, and the next run's commit carries exactly its staged rows, which a run made and recorded. |
| `WriteSeam.UnrecordedBatchIsRefused` | crates/quizdom/src/db_init.rs:549-580 | A run killed between a batch's staging write and its record is accepted exactly when the batch left HEAD's rows or the very root an earlier batch recorded; so after recorded batches it is refused whenever the batch changed a row, unless it undid the run. |
| `WriteSeam.HalfBatchIsRefused` | crates/quizdom/src/db_init.rs:660-689 | A run killed inside a batch before it stages, or stopped there by a failing statement, is accepted exactly when what ran of the batch changed no row. |
| `WriteSeam.BatchIsSteps` | crates/quizdom/src/db_init.rs:679-689 | One self-staging call is the machine's steps: its statements, the staging of quizdom's tables, the record. |
| `Commands.CommandFollows` | crates/quizdom/src/db_migrate.rs:173-355 | A command's steps, after any possible history, are more of that history; so what is proved of every run of the machine holds over commands, user steps and crashes in any order. |
| `Commands.CommandsCommitsAreAccounted` | crates/quizdom/src/dolt_store.rs:218-253 | After any command in any such history, every quizdom-labelled commit in the log is accounted for as `WriteSeam.Provenance` says. |
| `Commands.BatchLeads` | crates/quizdom/src/db_init.rs:679-689 | A batch whose statements succeed is possible steps of a run in hand, ending in the next. |
| `Commands.CommitLeads` | crates/quizdom/src/db_init.rs:847-859 | The commit tail, in each of its outcomes, is possible steps that end the run. |
| `DoltRepository.UncommittedTables` | crates/quizdom/src/db_init.rs:696-724 | Splits a status answer into the staged and the unstaged tables, both directions, each table once. |
| `DoltRepository.Repository.BeginWrite` | crates/quizdom/src/db_init.rs:490-514 | Accepts exactly when nothing in quizdom's tables is unstaged and what is staged is nothing or is what the marker recorded (and the hash could be read); names exactly the tables it resumes or refuses for, `nodes` for changed nodes and `edges` for changed edges; changes nothing. |
| `DoltRepository.Repository.StagedIsOurs` | crates/quizdom/src/db_init.rs:533-549 | True exactly when the staged hash can be read and equals the recorded one: a missing marker or an unreadable hash is a refusal. |
| `DoltRepository.Repository.RecordStaged` | crates/quizdom/src/db_init.rs:570-580 | Without a fingerprint the marker is removed; with one it becomes that fingerprint, or stays as it was if the file cannot be written. |
| `DoltRepository.Repository.ClearStaged` | crates/quizdom/src/db_init.rs:586-588 | The marker is gone and nothing else changes. |
| `DoltRepository.Repository.RunStagingWrite` | crates/quizdom/src/db_init.rs:660-689 | Runs what the engine understands by the text, staging call and fingerprint query included: succeeds exactly when every statement does, then with all applied, `nodes` and `edges` staged, and the staged root recorded; otherwise the statements before the failing one are in the working set, unstaged and unrecorded. |
| `DoltRepository.Repository.AddNamed` | crates/quizdom/src/db_init.rs:660-669 | `CALL DOLT_ADD(..)` stages the tables it names and no other. |
| `DoltRepository.Repository.RunWrites` | crates/quizdom/src/db_init.rs:679-689 | The statements a script starts with run in order up to the first that fails, and what ran before it stays in the working set. |
| `DoltRepository.Repository.RunStaging` | crates/quizdom/src/db_init.rs:660-689 | The rest of a script stages quizdom's two tables, and answers with the staged root unless the answer is unreadable. |
| `DoltRepository.BrokenBatchMore` | crates/quizdom/src/db_init.rs:679-689 | The statement a batch first fails on fixes what the failed batch leaves behind. |
| `DoltRepository.Repository.WorkingSetIsClean` | crates/quizdom/src/db_init.rs:341-356 | Clean exactly when the scoped tables (or, for a snapshot, all tables) differ neither from the staged nor from the committed root. |
| `DoltRepository.Repository.CommitStagedRoot` | crates/quizdom/src/db_init.rs:886-912 | Commits the staged root when there is one to commit; a refusal counts as nothing-to-commit exactly when the status is clean, and is an error otherwise. |
| `DoltRepository.Repository.CommitTables` | crates/quizdom/src/db_init.rs:847-859 | The tail of every quizdom write: whole new state and result in each case; the marker is cleared on either success and kept on failure. |
| `DoltRepository.Repository.CommitWorkingSet` | crates/quizdom/src/db_init.rs:874-881 | The snapshot: HEAD becomes the whole working set, under a label that is not quizdom's; no commit when nothing is pending; a commit that fails leaves everything staged and nothing else changed. |
| `DoltRepository.BrokenLeads` | crates/quizdom/src/db_init.rs:679-689 | A batch that fails is possible steps of the machine too: its statements up to the failing one, which ends the run. |
| `DoltRepository.RunOne` | crates/quizdom/src/db_init.rs:679-689 | One text shipped within a claim: its effect, and the steps of the machine it is. |
| `DoltRepository.RunAll` | crates/quizdom/src/db_migrate.rs:241-246 | Texts shipped one after the other: succeeds exactly when all the statements understood by them do, in order, and is steps of the machine either way; recorded, it stays resumable. |
| `Chunking.ChunkBySqlBytes` | crates/quizdom/src/dolt_store.rs:49-66 | The chunks concatenate to the input; each is at most 500 items and 65536 bytes or is one item alone; each but the last holds 500 items or has no room for the next item's bytes. |
| `Chunking.EagerIsFewest` | crates/quizdom/src/dolt_store.rs:49-66 | Such a partition has the fewest chunks of all contiguous partitions within the bounds. |
| `Chunking.EagerStaysAhead` | crates/quizdom/src/dolt_store.rs:49-66 | The induction behind it: another partition within the bounds is never ahead after as many chunks. |
| `Chunking.ChunkStatements` | crates/quizdom/src/db_migrate.rs:606-623 | The batches are the statements joined by newlines, in order and once each; each is within the byte budget or one statement; and each but the last would go over it with a newline and the next statement. |
| `Chunking.BatchFits` | crates/quizdom/src/db_migrate.rs:606-623 | The running length is within its bound exactly when the joined text's bytes are within the budget. |
| `Chunking.JoinedLength` | crates/quizdom/src/db_migrate.rs:606-623 | The running length is the joined text's length in bytes, plus one. |
| `SqlText.SqlQuote` | crates/quizdom/src/db_migrate.rs:665-677 | The buffer loop prints the escaped literal. |
| `SqlText.QuotedIsRead` | crates/quizdom/src/db_migrate.rs:665-677 | A printed literal followed by text not starting with a quote is read as exactly that text, and what follows is left alone: every string, with doubled quotes and backslash escapes. |
| `SqlText.LexPrinted` | crates/quizdom/src/db_migrate.rs:628-662 | A printed statement lexes to its fixed text and exactly the values it was given, whatever those hold. |
| `SqlText.BatchIsItsStatements` | crates/quizdom/src/db_migrate.rs:606-662 | A batch joined by newlines reaches the engine as exactly its statements, in order, though values may hold quotes, semicolons and newlines. |
| `SqlText.IdListIsRead` | crates/quizdom/src/dolt_store.rs:361-366 | A printed id list parses back to the same ids, in order, with repeats. |
| `StoreReads.IdListLength` | crates/quizdom/src/dolt_store.rs:71-73 | The bytes charged for the ids of a list are its bytes in UTF-8, and the one separator it saves. |
| `SqlStatements.UpsertIsStatement` | crates/quizdom/src/db_migrate.rs:628-646 | The node upsert is such a statement for every id and row. |
| `SqlStatements.EdgeIsStatement` | crates/quizdom/src/db_migrate.rs:650-662 | So are the edge inserts, for every edge. |
| `SqlStatements.RenderIsStatement` | crates/quizdom/src/dolt_store.rs:424-497 | So is every statement the store and the migration print. |
| `SqlStatements.CaseTextIsRendered` | crates/quizdom/src/dolt_store.rs:646-664 | The batched re-weight, built arm by arm, is such a statement: the same text. |
| `SqlGrammar.SqlIsRead` | crates/quizdom/src/db_migrate.rs:628-662 | The engine's grammar, which knows keywords but no table or column name, reads every statement it can print back to the same tree: inserts with their update clause, updates by value or by `CASE`, calls and selects. |
| `SqlReading.RenderIsRead` | crates/quizdom/src/dolt_store.rs:424-497 | Every printed statement, parsed by that grammar and each value matched to the column named for it, is the statement meant: right verb and table, ids, kinds, texts, tags and weights each in the column of that name, in the update clause as in the row. |
| `SqlReading.AddIsRead` | crates/quizdom/src/db_init.rs:660-669 | The staging call is read as `DOLT_ADD` of exactly `nodes` and `edges`. |
| `SqlReading.HashIsRead` | crates/quizdom/src/db_init.rs:549-568 | The fingerprint query is read as the hash of `STAGED`, under the name the answer is looked up by. |
| `SqlReading.WriteIsUnderstood` | crates/quizdom/src/db_init.rs:660-669 | A text with the staging appended is understood as its statements in order, then the staging call, then the fingerprint query, whatever the values hold. |
| `SqlReading.BatchIsUnderstood` | crates/quizdom/src/db_migrate.rs:606-662 | The same of any text the migration or the store sends: the engine understands it as exactly its statements, in order, with nothing injected by a value, and the staging after them. |
| `SqlReading.CaseTextIsUnderstood` | crates/quizdom/src/dolt_store.rs:653-664 | The batched re-weight's text is understood as one update of tags and weight with every arm, each id with its own, then the staging. |
| `SqlStatements.ArmTextBytes` | crates/quizdom/src/dolt_store.rs:331-337 | The bytes of both arms and of the id list are the bytes charged for the rows, less one separator. |
| `SqlStatements.CaseBytes` | crates/quizdom/src/dolt_store.rs:653-664 | The emitted statement's byte length is the bytes charged plus a constant, for every chunk, multi-byte text included. |
| `SqlStatements.ArmIsSmall` | crates/quizdom/src/dolt_store.rs:325-337 | A row within the schema's column widths is within the byte budget on its own. |
| `SqlStatements.ChunkIsPassable` | crates/quizdom/src/dolt_store.rs:629-667 | So no chunk of such rows makes an argument of 128 KiB, staging call included. |
| `Text.DecimalRoundTrip` | crates/quizdom/src/dolt_store.rs:424-456 | Printing a number and parsing it are inverse, and print digits only. |
| `Text.DecimalWidth` | crates/quizdom/src/dolt_store.rs:325-337 | A number below 10^k prints in at most k digits. |
| `Text.Utf8IsRead` | crates/quizdom/src/dolt_store.rs:49-73 | The width charged for a character is the number of its UTF-8 bytes, from which it is read back whatever follows. |
| `Text.ByteLenIs` | crates/quizdom/src/dolt_store.rs:49-73 | The byte length of a text is the number of its UTF-8 bytes. |
| `Text.BytesTellApart` | crates/quizdom/src/dolt_store.rs:49-73 | No two texts have the same bytes. |
| `Tables.ExecAllConcat` | crates/quizdom/src/db_migrate.rs:241-246 | Executing two batches one after the other is executing all their statements, failures included. |
| `Tables.ReweightIs` | crates/quizdom/src/dolt_store.rs:477-497 | A single re-weight fails exactly on an existing row it would take over weight 100 or 2048 characters of tags; otherwise that row's tags and weight are the new ones, its kind, title and body and every other row are as they were. |
| `Tables.CaseUpdateIs` | crates/quizdom/src/dolt_store.rs:653-664 | A `CASE` update fails as a whole exactly on such a row, and otherwise re-weights each row by the first arm naming it and leaves the rest. |
| `Tables.InsertIs` | db/schema.sql:10-21 | An insert fails on a taken id, an upsert replaces the row, and both fail exactly beyond 64 characters of id, 2048 of tags or a weight of 100. |
| `Tables.InsertEdgeIs` | db/schema.sql:23-32 | An edge needs both its ends; a repeated or dangling one fails an insert and leaves an `INSERT IGNORE` without effect. |
| `Tables.SchemaIsKept` | db/schema.sql:10-32 | No list of statements breaks what the schema says of the rows, and none takes a row or an edge away. |
| `StoreReads.FoundNodes` | crates/quizdom/src/dolt_store.rs:182-201 | One query per chunk of distinct ids yields exactly the rows of the ids that exist, for every table and every split. |
| `StoreReads.FetchNodes` | crates/quizdom/src/dolt_store.rs:553-561 | Equals the loop of single fetches: order, repeats, and the id reported missing. |
| `StoreReads.FetchLoopFails` | crates/quizdom/src/store.rs:181-183 | The id reported is the first absent one in the order asked. |
| `StoreReads.FetchNodesPresent` | crates/quizdom/src/dolt_store.rs:567-573 | Equals the loop that skips absent ids. |
| `StoreReads.StrictIsLenient` | crates/quizdom/src/store.rs:211-221 | The strict read succeeds exactly when nothing is absent, and then equals the lenient one. |
| `StoreReads.SelectEdges` | crates/quizdom/src/dolt_store.rs:593-617 | The ordered edge query: exactly the matching rows, strictly sorted by source, age and target. |
| `StoreReads.Neighbors` | crates/quizdom/src/dolt_store.rs:411-422 | The targets of one source: each once, by the edge's creation time, older first, ties by target id. |
| `StoreReads.NeighborsAreDetermined` | crates/quizdom/src/store.rs:136-147 | That contract has one answer for every table, so the batched and the single read must agree, order included. |
| `StoreReads.OldestFirst` | crates/quizdom/src/dolt_store.rs:593-617 | The query's order, between two targets of one source, is creation time and then target id. |
| `StoreReads.NeighborsMany` | crates/quizdom/src/dolt_store.rs:593-617 | Total over the ids asked, and each id answered exactly as its own read would, for every split into chunks. |
| `StoreReads.AddChunk` | crates/quizdom/src/dolt_store.rs:593-617 | One query answers all the ids of its chunk and disturbs no other. |
| `Ordering.SortedIsUnique` | crates/quizdom/src/dolt_store.rs:593-617 | A set of edge rows can be listed in query order in one way only. |
| `Ordering.LessIsAlphabetical` | crates/quizdom/src/dolt_store.rs:593-617 | One id sorts before another exactly if it is a proper prefix or has the lower character where they first differ. |
| `StoreWrites.LoopIs` | crates/quizdom/src/store.rs:253-258 | The loop over single re-weights leaves each existing row as its last entry says, unknown ids ignored, and fails exactly when some entry about an existing row violates the schema. |
| `StoreWrites.ReweighIsLast` | crates/quizdom/src/dolt_store.rs:629-667 | Each row ends with the weight and tags of its last entry and keeps its kind, title and body; a row without an entry is as it was. |
| `StoreWrites.LatestFitIs` | crates/quizdom/src/dolt_store.rs:629-667 | It is the last entries of existing rows that must fit, 100 and 2048. |
| `StoreWrites.CaseIs` | crates/quizdom/src/dolt_store.rs:653-664 | One batched statement does the same for its rows, first matching arm or not. |
| `StoreWrites.BatchIs` | crates/quizdom/src/dolt_store.rs:653-664 | Any split of the arms into statements comes to the same rows, or fails alike. |
| `StoreWrites.BatchAgreesWithLoop` | crates/quizdom/src/dolt_store.rs:629-667 | Whenever the loop succeeds the batch does, with the same table; and the batch succeeds where the loop fails exactly when every violating entry is overridden by a later one that fits. |
| `StoreWrites.CorrectedEntryOnlyStopsTheLoop` | crates/quizdom/src/store.rs:253-258 | The concrete list whose violating entry is corrected later: the loop stops at it, the batch succeeds. |
| `StoreWrites.LatestOf` | crates/quizdom/src/dolt_store.rs:630-634 | The map the loop fills holds the last entry of each id. |
| `StoreWrites.ArmsOf` | crates/quizdom/src/dolt_store.rs:640-652 | The arms carry one entry for each id, and lose none. |
| `StoreWrites.DoltStore.Commit` | crates/quizdom/src/dolt_store.rs:240-253 | The process-wide flag is raised exactly when a commit was made; a no-op write is a success. |
| `StoreWrites.DoltStore.Finish` | crates/quizdom/src/dolt_store.rs:240-253 | The end of a claimed write: succeeds exactly when it can commit or has nothing to, HEAD then holding the staged rows. |
| `StoreWrites.DoltStore.WriteOne` | crates/quizdom/src/dolt_store.rs:458-497 | A single-statement write, sent as text: HEAD, staged and working rows are the statement's result on success; from an acceptable repository it succeeds exactly when the statement does; at most one commit, none on failure; and the whole of it is a run of the write seam. |
| `StoreWrites.DoltStore.CreateNode` | crates/quizdom/src/dolt_store.rs:424-456 | The new id was in no row and is one past the highest suffix; HEAD becomes the working rows with that row added (after a resumed pre-flight, what was staged with it); from an acceptable repository it fails only if the insert does; a run of the write seam. |
| `StoreWrites.DoltStore.UpdateWeights` | crates/quizdom/src/dolt_store.rs:629-667 | HEAD is what the loop over single re-weights gives, in one commit; row by row, the tags and weight of the last entry and nothing else; an empty list writes nothing; and a failed write names a last entry the table would not take. |
| `StoreWrites.DoltStore.RunChunks` | crates/quizdom/src/dolt_store.rs:653-665 | The texts sent succeed as a batch exactly when their statements do one after the other; nothing is committed. |
| `Minting.HighestSuffix` | crates/quizdom/src/dolt_store.rs:429-440 | The largest parseable suffix among the rows, or 0. |
| `Minting.ParseU64Reads` | crates/quizdom/src/dolt_store.rs:429-440 | A suffix of digits is the number they spell, zeros in front or a plus sign allowed, up to the largest unsigned 64-bit number. |
| `Minting.NotANumber` | crates/quizdom/src/dolt_store.rs:429-440 | A suffix that is empty or holds anything else has no number. |
| `Minting.MintedSuffix` | crates/quizdom/src/dolt_store.rs:429-440 | A minted id parses back to the suffix it was printed from. |
| `Minting.MintedIsNew` | crates/quizdom/src/dolt_store.rs:429-440 | The minted id is not in the table, except exactly when the highest suffix is the last 64-bit number and the wrapped-around id is taken. |
| `Minting.LastNumberCollides` | crates/quizdom/src/dolt_store.rs:429-440 | The concrete pair of hand-inserted ids with which the wrapped-around id is already taken. |
| `Minting.MintedNeverRepeat` | crates/quizdom/src/dolt_store.rs:424-456 | Over every sequence of creations and hand-inserted ids, while numbers last, no id is minted twice or was there before. |
| `Reachability.BegetsReachable` | crates/quizdom/src/db_migrate.rs:696-707 | Terminates on every edge list, cyclic or not, and returns exactly the nodes reachable by `begets` paths. |
| `Reachability.Follow` | crates/quizdom/src/db_migrate.rs:699-705 | One node off the worklist: all its new targets go on, and nothing unreachable does. |
| `Reachability.CteIsReachability` | crates/quizdom/src/dolt_store.rs:502-547 | The recursive query succeeds exactly when no reachable node is more hops away than the limit, and then returns exactly the reachable nodes. |
| `Reachability.RoundsExact` | crates/quizdom/src/db_migrate.rs:683-693 | After k rounds of the `UNION` the query has exactly the nodes within k hops; the induction over its rounds. |
| `Reachability.WalkEqualsCte` | crates/quizdom/src/db_migrate.rs:683-707 | Walk and query agree on a root if and only if it is at most 64 characters, the width the query casts it to. |
| `Reachability.LongRootIsCut` | crates/quizdom/src/db_migrate.rs:683-693 | The concrete root of 65 characters that the query answers for its first 64 only. |
| `Reachability.LongChainAborts` | crates/quizdom/src/dolt_store.rs:502-547 | The concrete chain one hop longer than the limit: its end is reachable, and the query aborts. |
| `Migration.UpsertsRun` | crates/quizdom/src/db_migrate.rs:628-646 | Running the upserts overlays the exported rows, and fails exactly when some row violates the schema. |
| `Migration.EdgeInsertsRun` | crates/quizdom/src/db_migrate.rs:650-662 | Running the edge inserts adds exactly the missing edges. |
| `Migration.OverlayIs` | crates/quizdom/src/db_migrate.rs:628-646 | The result row by row: an exported id holds its last exported row, any other id is untouched. |
| `Migration.AddEdgesIs` | crates/quizdom/src/db_migrate.rs:650-662 | The result edge by edge: an edge already there keeps its creation time. |
| `Migration.SecondRunChangesNothing` | crates/quizdom/src/db_migrate.rs:628-662 | A second run of the same import changes nothing, creation times included. |
| `Migration.RetryConverges` | crates/quizdom/src/db_migrate.rs:241-246 | A run stopped after any number of its nodes and edges and started over ends with the rows of an uninterrupted run. |
| `Migration.BatchesCarryStatements` | crates/quizdom/src/db_migrate.rs:606-662 | Each batch text of a list of statements is understood by the engine as its slice of them, and the slices together are the list: executing the batches is executing the statements. |
| `Migration.CountBy` | crates/quizdom/src/db_migrate.rs:709-715 | The counts are the multiset of keys, without zero entries. |
| `Migration.BagCounts` | crates/quizdom/src/db_migrate.rs:265-276 | What the grouped count query counts: for each kind, its rows. |
| `Migration.CountsRuleOutExtras` | crates/quizdom/src/db_migrate.rs:265-297 | Rows that include every listed one, and are as many as the list is long, are exactly the listed ones if and only if the list repeats nothing. |
| `Migration.ParityProvesExactness` | crates/quizdom/src/db_migrate.rs:265-297 | After an import, passing counts and cross-check make the tables exactly the export if and only if neither aida listing held a duplicate. |
| `Migration.DuplicateHidesExtra` | crates/quizdom/src/db_migrate.rs:709-753 | The concrete duplicate behind which a row nobody exported passes the gate. |
| `Migration.SpotCheckIsImplied` | crates/quizdom/src/db_migrate.rs:299-325 | Once the tables are exact, the spot-check of any migrated root the query can finish on must agree. |
| `MigrationRun.DomainEdges` | crates/quizdom/src/db_migrate.rs:208-217 | Keeps exactly the edges with both ends exported. |
| `MigrationRun.RenderParity` | crates/quizdom/src/db_migrate.rs:730-753 | Reports exactly the kinds the two counts differ on, each with both numbers, kinds missing on one side included. |
| `MigrationRun.CrossCheckEdgeReads` | crates/quizdom/src/db_migrate.rs:547-565 | Reports exactly the edges one read has and the other lacks, each way. |
| `MigrationRun.RunBatches` | crates/quizdom/src/db_migrate.rs:241-246 | The statements are printed, batched within the byte budget and shipped as text; that succeeds exactly when running them does, with the same rows; nothing is committed, and recorded batches leave the repository resumable. |
| `MigrationRun.CompareTables` | crates/quizdom/src/db_migrate.rs:265-297 | Nothing is reported exactly when both tables' per-kind counts match and the two edge reads name the same edges; each kind that differs is reported with both numbers, each edge in one read only by which one, and nothing else is. |
| `MigrationRun.CompareCounts` | crates/quizdom/src/db_migrate.rs:265-276 | One table's counts against the wanted kinds: empty exactly when they are the same multiset, and each differing kind with its two numbers. |
| `MigrationRun.SpotCheck` | crates/quizdom/src/db_migrate.rs:299-325 | Of a migrated root, or one with an outgoing `begets` edge: passes exactly when the query returns the reachable nodes, undecided exactly when it aborts at 1000 rounds. Any other root is reported as not migrated. |
| `MigrationRun.LineageIsReach` | crates/quizdom/src/db_migrate.rs:299-317 | Such an edge is what it takes to reach another node at all. |
| `MigrationRun.CheckParity` | crates/quizdom/src/db_migrate.rs:265-325 | The whole gate: passes exactly when both halves do, undecided exactly when the query aborts; exact tables pass with any migrated root the query finishes on, and a root nobody exported is reported whatever else is. |
| `MigrationRun.ExactPasses` | crates/quizdom/src/db_migrate.rs:299-325 | On exact tables the query returns the walk for every migrated root it finishes on. |
| `MigrationRun.WriteImport` | crates/quizdom/src/db_migrate.rs:241-246 | Nodes then edges: succeeds exactly when every row fits, and then the tables are the import over what was there. |
| `MigrationRun.DbMigrate` | crates/quizdom/src/db_migrate.rs:173-355 | Commits only after the gate, at most once, and then HEAD's tables are exactly the import; each failure has its exact cause. An export without duplicates, with matching counts and edge reads and any migrated root, commits; a root nobody exported never does, and is named. A run that failed parity can simply be run again. |
| `LogRotation.LogDirectory.RotateIfFull` | crates/quizdom/src/diagnostics.rs:301-318 | The new state of the three files for every size and every failing system call: the log is emptied only when the copy is in place. |
| `LogRotation.LogDirectory.AppendEntryBounded` | crates/quizdom/src/diagnostics.rs:262-280 | The line is always appended, after a rotation note exactly when one happened. |
| `LogRotation.LeavesOnlyBehindACopy` | crates/quizdom/src/diagnostics.rs:262-318 | With any writers interleaving and dying, a step either keeps the live log as a prefix or empties it with its complete copy in `.1`. |
| `LogRotation.PreviousIsComplete` | crates/quizdom/src/diagnostics.rs:301-318 | In every run `.1` is absent or a complete earlier live log of at least `limit` bytes. |
| `LogRotation.NothingIsLost` | crates/quizdom/src/diagnostics.rs:262-318 | Over every run, the start plus everything appended is everything retired plus the live log, and `.1` ends what was retired or duplicates the start of the live log: a crash between rename and truncate duplicates and never loses. |
| `LogRotation.StaysBounded` | crates/quizdom/src/diagnostics.rs:262-318 | While rotations succeed, crashes included, the live log stays below the limit plus one record. |
| `LogRotation.AloneIsAppend` | crates/quizdom/src/diagnostics.rs:262-280 | A writer left alone from lock to unlock does exactly what the method above does, whichever of its system calls fails. |
| `LogRotation.NoteSays` | crates/quizdom/src/diagnostics.rs:311-318 | The note is one line, opening with the log's size in bytes and ending with where its entries went. |
| `LogText.SkipEscapeSequence` | crates/quizdom/src/diagnostics.rs:179-210 | Leaves the iterator where the automaton for control sequences and operating system commands returns to plain text. |
| `LogText.OneLine` | crates/quizdom/src/diagnostics.rs:157-171 | The iterator loop computes what the automaton shows of the event. |
| `LogText.SequencesAreDropped` | crates/quizdom/src/diagnostics.rs:157-210 | Of any well-formed terminal text exactly the characters show, controls as spaces, with no debris of a sequence: one that starts with `ESC [` ends at the first character from 0x40 to 0x7e, one that starts with `ESC ]` at a BEL or `ESC \`. |
| `LogText.UnfinishedShowsNothing` | crates/quizdom/src/diagnostics.rs:179-192 | A control sequence without its final character hides everything after it. |
| `LogText.BrokenCommandEnds` | crates/quizdom/src/diagnostics.rs:193-210 | A command broken off by another escape ends there, and the rest is shown as if it stood alone. |
| `LogText.TrailingEscapeShowsNothing` | crates/quizdom/src/diagnostics.rs:179-210 | An escape at the very end shows nothing. |
| `LogText.ScanIsPrintable` | crates/quizdom/src/diagnostics.rs:157-171 | No control character comes out, whatever goes in. |
| `LogText.PrintableIsKept` | crates/quizdom/src/diagnostics.rs:157-171 | Printable text is unchanged. |
| `LogText.OneLineIsIdempotent` | crates/quizdom/src/diagnostics.rs:157-171 | A second pass changes nothing. |
| `LogText.LinesOfRecorded` | crates/quizdom/src/logs.rs:169-184 | Splitting a log of printable entries into lines gives the entries back. |
| `LogText.LinesEnd` | crates/quizdom/src/logs.rs:169-184 | Lines end at a newline, with or without a carriage return; a last line may lack it; an empty file has none. |
| `LogText.RenderLogs` | crates/quizdom/src/logs.rs:148-194 | Shows the last N lines, each made printable, for any file contents. |
| `LogText.RecordedIsReadBack` | crates/quizdom/src/diagnostics.rs:133-135 | For every list of events recorded without rotation, reading gives back exactly the entries and `--tail N` the last min(N, count). |
| `LogText.EntrySays` | crates/quizdom/src/diagnostics.rs:133-135 | An entry is the time, two spaces and the event, all of it when it is printable. |
| `QuoteScanner.QuoteColorRuns` | crates/quizdom/src/markdown.rs:397-433 | Produces the leftmost segmentation, looking at each character exactly once. |
| `QuoteScanner.FindClose` | crates/quizdom/src/markdown.rs:474-495 | The first legal closer, or none up to the end of the run. |
| `QuoteScanner.SegmentationConcat` | crates/quizdom/src/markdown.rs:397-439 | The spans of a segmentation concatenate to the text, and none is empty unless the text is. |
| `QuoteScanner.SegmentationUnique` | crates/quizdom/src/markdown.rs:397-433 | Every text has one segmentation only, so its clauses determine the scanner's output. |
| `QuoteScanner.PlainIsMaximal` | crates/quizdom/src/markdown.rs:397-433 | A plain span runs up to the next legal opener or the end. |
| `QuoteScanner.ColouredStarts` | crates/quizdom/src/markdown.rs:457-472 | A coloured span starts with one of the four openers; a single one only at the start of the text, after whitespace or after one of six marks. |
| `QuoteScanner.PlainHasNoOpener` | crates/quizdom/src/markdown.rs:457-472 | No plain span holds a double opener, nor a single one in such a place. |
| `QuoteScanner.ColouredEnds` | crates/quizdom/src/markdown.rs:474-495 | A coloured span ends with its opener's own mate, a single one before the end, whitespace or closing punctuation, or runs to the end of the text. |
| `QuoteScanner.ColouredEndsAtFirst` | crates/quizdom/src/markdown.rs:474-495 | And nothing earlier inside it could have ended it. |
| `QuoteScanner.ApostropheIsKept` | crates/quizdom/src/markdown.rs:457-495 | A single quote between two letters neither starts nor ends a coloured span. |
| `QuoteScanner.ContractionsArePlain` | crates/quizdom/src/markdown.rs:457-472 | A text whose only quotes are apostrophes inside words is one plain span. |
| `QuoteScanner.FlushPlain` | crates/quizdom/src/markdown.rs:435-439 | After a flush the spans are a right segmentation of everything scanned so far, and extend the spans there were. |
| `FileTree.CountSessionLogs` | crates/quizdom/src/db_backup.rs:856-877 | The recursive running count is the number of session logs of the tree. |
| `FileTree.LogsTakeOne` | crates/quizdom/src/db_backup.rs:856-877 | In whatever order a directory is read, the count is the same. |
| `FileTree.LogsAreFiles` | crates/quizdom/src/db_backup.rs:856-877 | What is counted are the files, at any depth, whose names end in `.jsonl`, each once. |
| `FileTree.CopyDirAll` | crates/quizdom/src/db_backup.rs:882-895 | The recursive copy is the source tree. |
| `UsersMirror.FileSystem.MirrorUsers` | crates/quizdom/src/db_backup.rs:735-776 | An empty source changes nothing; otherwise the outcome and every path afterwards, for each failing call: success leaves the backup equal to the sessions and no scratch; every failure leaves the old backup whole, in place or moved aside. |
| `UsersMirror.FileSystem.SwapIn` | crates/quizdom/src/db_backup.rs:751-775 | Old backup aside, new one in, old one gone, with each failing rename rolled back as far as it can be. |
| `UsersMirror.FileSystem.RestoreUsers` | crates/quizdom/src/db_backup.rs:786-819 | Succeeds exactly when there is no backup, or the backup is a directory and the target is absent or empty; then the sessions are the backup, with its log count; a target holding anything is refused untouched. |
| `UsersMirror.FileSystem.MirrorThenRestore` | crates/quizdom/src/db_backup.rs:735-819 | A mirror, the loss of the sessions, and a restore give the same tree and the same count both times. |
| `UsersMirror.BackupIsNeverPartial` | crates/quizdom/src/db_backup.rs:735-776 | Over any sequence of finished, failed, crashed and restarted runs, scratch names repeating or not, the backup path is absent or holds exactly one complete snapshot. |
| `UsersMirror.ASnapshotSurvives` | crates/quizdom/src/db_backup.rs:735-776 | Once there has been a backup, some path holds a complete snapshot ever after. |
| `UsersMirror.AbsentExactlyInGap` | crates/quizdom/src/db_backup.rs:751-775 | Once there has been a backup, its path is absent exactly when a run has moved it aside and none has since renamed a copy in or put the old one back. |
| `UsersMirror.KilledBetweenRenames` | crates/quizdom/src/db_backup.rs:751-775 | The concrete run killed between its two renames: the path absent, the new copy and the old backup both whole under their scratch names. |
| `UsersMirror.RestoreInGap` | crates/quizdom/src/db_backup.rs:786-794 | A restore in that gap reports nothing restored and no error, though some path holds a complete snapshot. |
| `UsersMirror.WholeRunMirrors` | crates/quizdom/src/db_backup.rs:735-852 | An uninterrupted run of the steps ends as the method above does, whichever call fails, whatever earlier runs left under its scratch names. |
| `BackupPosition.BackupHost.DbBackup` | crates/quizdom/src/db_backup.rs:338-399 | The graph leg, which is done exactly when the snapshot, the push and any forced retirement are, then the session leg only if it was: after Done nothing is pending and the backup holds this very history, and a failing mirror does not undo it. |
| `BackupPosition.BackupHost.BackUpGraph` | crates/quizdom/src/db_backup.rs:380-388 | Snapshot, push, and the forced retirement: each outcome (done, snapshot failed, refused, unrelated, failed after retirement) has its exact cause, and its state. |
| `BackupPosition.BackupHost.SnapshotWorkingSet` | crates/quizdom/src/db_backup.rs:521-523 | Commits everything pending, and only if something is; a commit that fails leaves it staged. |
| `BackupPosition.SnapshotIsCommit` | crates/quizdom/src/db_backup.rs:521-523 | It is the write seam's snapshot step, seen as histories. |
| `BackupPosition.BackupHost.Push` | crates/quizdom/src/db_backup.rs:550-588 | A push lands exactly when it creates or fast-forwards the backup. |
| `BackupPosition.BackupHost.RetireForeignBackup` | crates/quizdom/src/db_backup.rs:641-651 | Moves whatever stands at the path to the least suffix at which nothing stands, file or directory; terminates whatever paths there are. |
| `BackupPosition.FreeName` | crates/quizdom/src/db_backup.rs:641-651 | The suffix loop ends, on the first candidate that is not taken. |
| `BackupPosition.CandidatesDiffer` | crates/quizdom/src/db_backup.rs:641-651 | No two suffixes give the same name, and none the backup's own. |
| `BackupPosition.CandidateNames` | crates/quizdom/src/db_backup.rs:641-651 | The names tried: `.foreign-lineage`, `.foreign-lineage.2`, `.foreign-lineage.3`. |
| `BackupPosition.BackupHost.SessionEnd` | crates/quizdom/src/db_backup.rs:1141-1195 | The session's last line over the run: it changes nothing unless the session wrote, opted in and the probe read drift or nothing; the push lands exactly when snapshot, push and mirror do; a line that says backed up is only said then, and the backup then holds this very history; a failed one always says so. |
| `BackupPosition.FooterSays` | crates/quizdom/src/db_backup.rs:1141-1195 | Every line has one cause, in terms of the probe's row: the reminder read drift and no opt-in, the blind lines a probe that read no branch, and each of the others how the push went. |
| `BackupPosition.SilenceMeansBackedUp` | crates/quizdom/src/db_backup.rs:1019-1195 | Over every run with one pusher and whatever the probe could read, the footer is silent exactly when the probe read that the last push was of HEAD and did not read that something is pending; then the backup holds exactly HEAD's history, and with a readable count nothing is pending. A probe without a row or a branch is never silent. |
| `BackupPosition.UnreadableCountIsSilent` | crates/quizdom/src/db_backup.rs:1032-1043 | The concrete gap: equal hashes and an unreadable count read as backed up over a dirty working set. |
| `BackupPosition.TrackedAlways` | crates/quizdom/src/db_backup.rs:1019-1044 | What was last pushed is always an earlier state of this history and always what the backup holds. |
| `BackupPosition.LineagesAreConserved` | crates/quizdom/src/db_backup.rs:602-651 | No run of backups, forced or not, loses a lineage any directory ever held. |
| `ShellWord.PathIsOneWord` | crates/quizdom/src/db_backup.rs:289-297 | Every path, bare or quoted, apostrophes included, is read by the shell as exactly one word equal to it, and what follows a blank is read as it would be alone. |
| `ShellWord.QuotesAreRead` | crates/quizdom/src/db_backup.rs:289-297 | Quotes reopened around any number of apostrophes append exactly the path to the word being read. |
| `ShellWord.BareIsHarmless` | crates/quizdom/src/db_backup.rs:289-297 | A path is printed bare exactly when it is not empty and holds only letters, digits and `._-/=:+,@`. |

## Left out

- Process spawning, `dolt` and `aida` output, JSON and ASCII-table decoding: replaced by status rows, table contents and roots. The message wording and the prose test for a nothing-to-commit refusal are not modelled; the status table decides.
- Failing reads: an `aida` listing that fails ends `db-migrate` early, and a status query that fails ends a pre-flight; the model starts from the answers. A hash query that fails is modelled.
- WriteSeam.Provenance: assumes no user step between one run's pre-flight and its commit; what happens otherwise is `WriteSeam.EditInsideARunIsCarried`.
- The marker file tampered with by hand, and two roots with the same hash.
- The timestamp columns of `nodes`: no modelled read selects them, so a loop and a batch may differ in `updated_at`.
- Splitting and trimming of tags in a row read back; tags are the joined text.
- Length limits of the `TEXT` columns, and the truncation of an over-long id by `INSERT IGNORE`: ids longer than their column are in no row, so such an edge is modelled as ignored.
- Iteration order of `BTreeMap` and `BTreeSet`: the model takes any order and proves the same result.
- The engine's clock reads the same through one command, and the marker file can be written for all of a command's batches or for none.
- A text outside the statements quizdom prints: what the engine makes of it is not modelled, and no method sends one.
- StoreWrites.DoltStore.CreateNode: reads the ids before its pre-flight, the source after it; nothing happens between the two.
- `list_nodes` and the other plain queries of the store, `db-init` and the schema it applies, `db-restore`'s clone: they would add easy members.
- LogRotation.StaysBounded: a failing rotation lets the log grow, by the source's own choice, and is excluded; lock failure and partly written lines are not modelled.
- LogRotation.LogDirectory.AppendEntryBounded: file contents are one `char` a byte, and a line is written in one step.
- LogText.RecordedIsReadBack: about a log without rotation; a rotation note is not sanitised, so a log path with a control character would show in it raw.
- UsersMirror.FileSystem.MirrorUsers: file permissions, failing removals, links, two mirrors at once, and sessions changing while they are copied are not modelled.
- Directory trees are values: `CopyDirAll` returns the copy rather than writing into a directory entry by entry. `UsersMirror`'s machine has partial copies and removals as steps of their own.
- BackupPosition.BackupHost.DbBackup: one remote and one directory; re-pointing the remote, what that does to its tracking ref, and a plain file at the backup path itself are not modelled. A commit is its own history, an injective hash.
- BackupPosition.SilenceMeansBackedUp: one pusher; a tracking ref set by another clone is not modelled.
- BackupPosition.BackupHost.SessionEnd: the probe's row is an input, true or not; what is true of a truthful one is `BackupPosition.SilenceMeansBackedUp`.
- ShellWord.PathIsOneWord: paths that are not Unicode, and a shell with history expansion.
- The process exit paths, argument parsing, settings, the terminal views, the editor, the language-model client, `bank.rs` and `contradiction.rs`.
