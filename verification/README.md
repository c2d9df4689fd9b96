# BOP verification model

Dafny models of BOP, a backup orchestrator with a durable job table, a bounded in-memory queue, one serial
consumer and a multi-step backup pipeline, and proofs about them. `dafny verify dfyconfig.toml` checks everything.

- **Job durability** (`Core`, `Jobs`, `Queue`, `Protocol`, `Recovery`, `App`): a transition system whose steps are
  the table writes, queue operations, publications and crashes of one controller, its inductive invariant, and the
  imperative controller process proved to be a run of it.
- **Pipeline** (`Events`, `Pipeline`, `Traces`, `Outcomes`, `Controller`, `Metrics`, `Seal`): RunJob with its loop,
  early exits and deferred cleanup; exact descriptions of its trace, snapshots, errors, files, restore tests and
  retention, as one state carried along and resource by resource; metrics and the UI seal as folds.
- **Informix** (`Utf8`, `Base64`, `Json`, `Dump`, `Insert`, `InformixRestore`): the JSON Lines dump down to bytes, the
  line scanner, and the transactional restore.
- **Text transformations** (`Decimal`, `Shell`, `ShellCmd`, `Remote`, `SqlIdentifier`, `Clients`, `PluginCommands`,
  `Rebind`, `EventQuery`): shell quoting read back by a POSIX shell, SQL identifiers nested in it, docker exec and
  `sh -c`, the clients' own arguments, placeholder translation and the event query read as SQL.
- **Smaller machines** (`Scratch`, `Routing`, `Updater`, `UseApi`): scratch databases of restore tests, snapshot to
  repository routing, the updater's link swap, and the stale-response guard.

Every database write and remote command may be applied, rejected, or applied with its acknowledgement lost. The shell
follows the Shell Command Language of IEEE Std 1003.1-2017 (sections 2.2, 2.3, 2.5.2, 2.6, 2.9), JSON RFC 8259,
base64 section 4 of RFC 4648, UTF-8 RFC 3629.

## Where the code and its own words differ

- A job whose chains are all full and whose retention was applied can still be failed: without restore tests the
  snapshot insert is the last step and publishes nothing (`Traces.FullChainsCanFail`, `Traces.CompletedByChains`).
- RunJob's comment says a job is never left in_progress on a live error path; a failing final write leaves it so
  until the next startup marks it failed, whatever event was published (`Protocol.TerminalEventAgreesIff`).
- The updater accepts a prerelease tag that equals another release's `.partial` directory. If that release is
  current, the next update of the other tag starts by deleting it (`Updater.Ran`,
  `Updater.PrereleaseTagsCanBePartial`). A failing restart, unlike a failing health check, is not rolled back
  (`Updater.ResultsAre`, `Updater.LinkIs`).
- A Postgres restore reports success although statements of the dump failed: psql is called without ON_ERROR_STOP and
  exits with 0 (`Scratch.SuccessLeavesWholeDumpIff`, `Scratch.FailedStatementsGoUnnoticed`). So a passed restore test
  says that psql ran, not that the dump loads (`Scratch.TestSucceedsIff`). MariaDB's client stops.
- A database name that starts with a dash, or for Postgres one with `=` in it, is no name to the client: a restore test
  can be loaded into a database that existed (`Scratch.TestOwnsOnlyItsScratchIff`,
  `Scratch.ConnectionStringIsLoadedElsewhere`).
- At the plugin port a restore into a real Postgres or MariaDB database whose name ends in `-bop-verify` would be
  taken for a restore test: it can report success and leave nothing (`Scratch.SuccessLeavesWholeDumpIff`). Today's only
  caller is the controller's restore test (`internal/controller/controller.go:398`), which always appends the suffix
  itself. Informix table names cannot end so.
- The accepted path `/` leaves tar nothing to archive, from the login directory (`PluginCommands.BaseIsEmptyIff`); a
  base name with a leading dash is an option (`PluginCommands.TarArchivesBaseIff`).
- If all release directories look partial, an otherwise good update run ends in an error (`Updater.OnlyPartialFails`).
- `useApi` can leave `loading` on: a refresh supersedes a load without ever clearing it (`UseApi.LoadingStaysOnIff`).
- A docker container name that starts with a dash is not rejected and is taken for an option
  (`Remote.NoContainerWithDash`); then nothing reaches the named container (`PluginCommands.PgDelivers`,
  `PluginCommands.MariaDelivers`).
- An inventory host with an empty name, which validation accepts, is routed to the default repository whatever its
  entry says (`Routing.RestoreFindsWhatWasStoredIff`, `Routing.UnnamedServerIsRoutedElsewhere`).
- Job IDs are unique only as far as host-plugin and the clock are (`Core.JobIdsCollideIff`); the primary key does
  the rest.

## Assumptions

- One controller process; a single consumer. The updater runs one at a time.
- `CreateTemp` never reuses a name (a counter stands for it). `CREATE DATABASE` on an existing name always fails.
  Loading a dump touches only the database the client is connected to. A closed Informix session discards its open
  transaction. An assignment before `exec` reaches the program's environment. Renaming a link over a link is atomic.
- psql exits with 0 after failed statements unless ON_ERROR_STOP is set; mariadb stops at the first error. Of
  connection strings only the single setting `dbname` is read here; what others name is left open.
- Postgres rejects the empty quoted identifier and cuts longer names at 63 bytes, for every client alike; both are
  left out of the reading of identifiers.
- Queries hold no nested comments, escape strings or numbered SQLite placeholders, in which the two databases' lexers
  differ further.
- The metrics subscriber neither loses an event nor panics.
- The database listing, the order of map iteration and of `ls -1t` among equals are arbitrary.

## Model

| member | source | states |
|---|---|---|
| Protocol.NextKeepsInv | internal/cli/wiring.go:141-176 | Every step of every actor - boot, orphan sweep, listing, re-enqueue, insert, enqueue, dequeue, start, the two publications, final write, crash, each with any write outcome - keeps the invariant over table, queue, consumer and published events. |
| Protocol.RunKeepsInv | internal/cli/controller.go:44-122 | The invariant holds after any interleaving of any number of steps and crashes. |
| Protocol.RunsAreSafe | internal/controller/controller.go:186-248 | In every reachable state queued IDs are distinct and have their queued row, the running job is not queued, and in a live process the in_progress rows are exactly the running job plus the jobs whose terminal write was rejected (or whose start write went through unacknowledged) since this process booted. |
| Protocol.StatusOnlyMovesForward | internal/metadata/jobs.go:34-48 | Over any run with any crashes the status history of each ID is a prefix of queued, in_progress, completed or failed, although the update ignores the old status. |
| Protocol.TerminalRowsAreFrozen | internal/metadata/jobs.go:34-48 | No row is ever removed or renamed, and a completed or failed row never changes again. |
| Protocol.StartedAtMostOnce | internal/controller/controller.go:201-204 | Across all crashes a job has at most one BackupStarted, a started job never reads queued again, and a completed row implies its BackupCompleted was published. |
| Protocol.NoAcceptedJobIsLost | internal/cli/wiring.go:135-155 | A row that once existed is forever in exactly one place: terminal, running or stuck in progress, in memory as queued, or queued and waiting for the next reconciliation. |
| Protocol.AbandonedOnlyFails | internal/metadata/jobs.go:128-144 | A job whose terminal write was rejected while it was in progress can only ever become failed. |
| Protocol.TerminalEventAgreesIff | internal/controller/controller.go:229-242 | The terminal event is published before the terminal write; a later terminal row agrees with it exactly when that write took effect or the event was BackupFailed. |
| Recovery.StartupRehydratesQueue | internal/cli/controller.go:44-54 | From any state a crash can leave, the startup order ends with no in_progress row and with the queue equal to the first min(capacity, n) rows of the oldest-first listing; exactly the rest is left for later. |
| Recovery.OldestAreRehydrated | internal/metadata/jobs.go:73-99 | The queue is refilled oldest first, no job left for the next startup was queued before one refilled, and every queued row is one or the other. |
| Recovery.RefillIs | internal/cli/wiring.go:146-150 | Enqueuing a list one by one with a refusal when full keeps exactly the prefix that fits and sheds exactly the rest. |
| Recovery.ConsumeOne | internal/cli/wiring.go:166-176 | One dequeued job taken through RunJob, with any outcome of each write: the resulting row, started and finished events. |
| Recovery.QuietLifeDrains | internal/cli/wiring.go:166-176 | With no arrival, crash or failed write the consumer empties the queue and moves exactly the startable jobs to a terminal status. |
| Recovery.StartupThenQuietLife | internal/cli/wiring.go:141-176 | A startup and a quiet life lower the queued rows by exactly the startable jobs in the reconciled prefix; with none startable there, nothing moves. |
| Jobs.JobTable.CreateJob | internal/metadata/jobs.go:19-29 | Insert: rejected on a known ID; whole new table in every outcome, a lost acknowledgement included. |
| Jobs.JobTable.UpdateJobStatus | internal/metadata/jobs.go:34-48 | Unconditional update by ID; ErrJobNotFound exactly when no row was affected. |
| Jobs.JobTable.FailOrphanedJobs | internal/metadata/jobs.go:133-144 | Every in_progress row becomes failed, no other changes, and the count is the number of such rows. |
| Jobs.ListingExists | internal/metadata/jobs.go:73-99 | The oldest-first listing of a status always exists: each such row once, in queued_at order. |
| Queue.Memory.Enqueue | internal/queue/memory.go:24-31 | Never blocks: appended at the end if there is room, refused and unchanged otherwise. |
| Queue.Memory.Dequeue | internal/queue/memory.go:33-40 | The oldest job is returned and removed, or nothing on cancellation. |
| App.App.Startup | internal/cli/controller.go:44-54 | The imperative startup over the real table and queue is the model run of StartupSteps; it stops at the first failing step. |
| App.App.Reconcile | internal/cli/wiring.go:141-155 | The enqueue loop refines one Reenqueue step a listed job, whatever fits. |
| App.App.Dispatch | internal/scheduler/scheduler.go:113-134 | The loop over the plugins: insert, then publish BackupRequested, then enqueue, the latter two only after an acknowledged insert; one failure does not stop the others. Exact run of the model, published events and table; every accepted tick has a row of its ID, and the first of a new ID has it with the tick's plugin and time and the requested host and policy; such a job is startable exactly when host, plugin and repository are known. |
| App.App.CreateAndEnqueue | internal/scheduler/scheduler.go:116-132 | The sequence both producers share: exact table, BackupRequested about this job published and the job put at the end of the queue (if it fits) exactly after an acknowledged insert of a new ID, and a run of the model. |
| App.App.TriggerBackup | internal/api/backups.go:39-84 | The second producer: the status code for every case, an undecodable body included. The new row, event and queue entry are the job host-plugin-nanos of the requested host and plugin with that host's policy and the tick's time; that job is startable exactly when the host's repository is known; a full queue still answers 202. |
| App.App.ConsumeNext | internal/cli/wiring.go:166-176 | One consumer turn over the real controller, table and queue refines the consumer steps of the model. |
| App.App.RunConsumer | internal/cli/wiring.go:166-176 | The consumer loop takes the oldest job each turn, and the k-th ends as the k-th outcome says: exactly these steps of the model, each run against the state the earlier ones left. |
| App.App.Crash | internal/cli/controller.go:44-122 | A process end at any point keeps the table and loses the queue; the invariant survives. |
| Core.JobIdsCollideIff | internal/core/core.go:96-108 | For any two requests the IDs built are equal exactly when host-plugin reads the same and the clock readings are equal. |
| Core.JobIdsCanCollide | internal/core/core.go:96-108 | Counterexample to uniqueness: hosts and plugins that join to the same text share IDs at one clock reading. |
| Core.IsRestoreTestIff | internal/plugin/plugin.go:19 | A restore-test target is exactly some resource's ID followed by -bop-verify. |
| Controller.Controller.RunJob | internal/controller/controller.go:186-248 | AfterJob of the old state, and what that comes to in terms of the calls alone (Outcomes.JobDone): repository contents, snapshot rows with job ID, host, plugin, size and checksum, the files that stay, restore tests, retention, first, last and restore-test events, outcome and job row, for every combination of outcomes. Restore tests happen exactly if the host's own verification setting, or without one the global one, is on. With every removal working temp_dir is as before. |
| Controller.Controller.RunPipeline | internal/controller/controller.go:255-296 | The result and the whole new state; retention is attempted exactly once if and only if discovery succeeded. |
| Controller.Controller.BackupAll | internal/controller/controller.go:277-282 | The resource loop collects exactly the failed resources and leaves the world AfterResources describes. |
| Controller.Controller.BackupResource | internal/controller/controller.go:300-405 | The step a resource stops at, its published prefix of the chain, its snapshot row, its restore test on the artifact still on disk, and its artifact file, which stays exactly when its removal failed: the deferred removal runs on every path. |
| Controller.Controller.Backup | internal/plugin/postgres/postgres.go:65-100 | Create, dump, stat, close: a file stays exactly when the dump succeeded or its removal failed. |
| Controller.Controller.RecordSnapshot | internal/metadata/snapshots.go:11-20 | Insert of a snapshot row, rejected on a known ID. |
| Pipeline.AfterJobFieldwise | internal/controller/controller.go:186-248 | The state after a job, split into its trace, snapshot rows, repository contents, temp files, restore tests and retention, each a function of the outcomes alone. |
| Outcomes.StagesAre | internal/controller/controller.go:300-405 | The step the i-th resource stops at is the first of its own calls that failed; of other resources only the snapshot IDs matter that the table holds by then. |
| Outcomes.ErrorsName | internal/controller/controller.go:277-282 | The job's error names exactly the resources that stopped, each with the step it stopped at. |
| Outcomes.ResourceEventsAre | internal/controller/controller.go:334-401 | The events of one resource by the step it stops at, each about this job and this resource. |
| Outcomes.JobIsDone | internal/controller/controller.go:186-248 | Resource by resource, without the state the loop carries: what is stored, recorded, left on disk, restore-tested into resource-bop-verify, retained and announced by a job that was marked, and exactly when it ends well. |
| Traces.TraceInGrammar | internal/controller/controller.go:204-295 | Every trace of RunJob is BackupStarted, discovery, one allowed prefix of the 5- or 7-event chain a resource, optional RetentionApplied, one terminal event. |
| Traces.GrammarIsRealised | internal/controller/controller.go:204-401 | Completeness: every word of that grammar is the trace of some run. |
| Traces.CompletedIff | internal/controller/controller.go:213-235 | The last event is BackupCompleted exactly when discovery succeeded, no resource stopped and retention was applied. |
| Traces.CompletedByChains | internal/controller/controller.go:356-402 | Reading the outcome off the chains: full chains and retention are necessary, and sufficient exactly when no snapshot insert failed; always sufficient with restore tests. |
| Traces.FullChainsCanFail | internal/controller/controller.go:356-367 | Counterexample: without restore tests a failed snapshot insert leaves every chain full and the job failed. |
| Traces.SnapshotsAreIsolated | internal/controller/controller.go:300-367 | The recorded snapshots are, in order, those of the resources whose own steps succeeded, each with this job's ID, host and plugin and its own size and checksum - independent of other resources, restore tests and retention - exactly when the repository returns new IDs. |
| Traces.ErrorCountOfJob | internal/controller/controller.go:277-294 | The error count is the number of failed resources plus one if retention failed. |
| Traces.TempFilesConserved | internal/controller/controller.go:311-315 | After a whole pipeline as many files stay as removals failed, by the plugin or by the deferred cleanup; with none failing the temp directory is as before. |
| Traces.RecordedIsStored | internal/controller/controller.go:335-367 | Every snapshot row a pipeline adds carries the job's host and is held by the repository the job stored into. |
| Metrics.Publisher.Publish | internal/metrics/metrics.go:68-105 | Every counter with its labels, the duration observed and the jobStarts map after one event of any kind. |
| Metrics.Multi.PublishOne | internal/events/multi.go:27-38 | A panic of the subscriber ends here, whatever it had done by then; without the recover it would go on. |
| Metrics.Multi.Publish | internal/events/multi.go:21-25 | With the recover the metrics see the event however the others react; without it exactly unless the log, which comes first, panics. |
| Metrics.Multi.PublishAll | internal/events/multi.go:21-38 | A whole trace: with the recover the metrics have observed exactly the trace, so after a serial one keys and counts are conserved; without it exactly the events at which the log did not panic. |
| Metrics.UnseenEndsAreLost | internal/events/multi.go:27-38 | Every end of a job that the metrics do not get to see is missing from the count. |
| Metrics.MetricsConserved | internal/metrics/metrics.go:68-105 | Over any serial stream the jobStarts keys are exactly the job in flight, each finished job is counted and timed once. |
| Metrics.MetricsOfRuns | internal/metrics/metrics.go:68-105 | After any number of events of any sequence of jobs: at most one key, and completed plus failed is started minus in flight. |
| Metrics.CountersSayOutcomes | internal/metrics/metrics.go:80-86 | After any sequence of jobs there is one increment a job, in order, with its host and plugin and completed exactly if it succeeded. |
| Metrics.RunsAreSerial | internal/controller/controller.go:204-235 | Jobs run one after the other publish an alternating stream of starts and matching ends. |
| Seal.SealIsSound | web/src/components/Seal.tsx:26-33 | The tier computed from the newest page of a job's events is the tier of its whole trace and says what the outcome says, for every limit from three on. |
| Seal.SealOfStoredJob | internal/metadata/events.go:57-72 | Any job run against an empty event table, its trace stored and the newest page read: the seal says what the outcome says. |
| Seal.TierIs | web/src/components/Seal.tsx:26-33 | Each tier under its own condition on the events: the strongest evidence, outweighed by a failure. |
| Seal.SealRises | web/src/components/Seal.tsx:26-33 | While a resource is on its way the seal rises with the number of events of its chain: nothing, artifact, repository, restore test. |
| Seal.FilteredAre | internal/metadata/events.go:57-66 | The filter keeps exactly the events of that job and that host, each as often as it is stored. |
| Seal.WindowShowsSealIff | web/src/pages/JobDetailPage.tsx:21-23 | For a completed job n newest events show the seal exactly when n is at least three or there was no resource. |
| Seal.PageShowsWindow | internal/metadata/events.go:57-72 | The returned page shows what the end of the stored trace shows. |
| Seal.NewestFirstIsReverse | internal/metadata/events.go:57-72 | With increasing timestamps the newest-first select has exactly one answer, the reversed trace. |
| Rebind.RebindQuery | internal/metadata/store.go:249-265 | The loop writes $1, $2, ... for the placeholders in order and copies everything else; the identity on SQLite. |
| Rebind.RebindPreservesMeaningIff | internal/metadata/store.go:245-265 | Reading the $n form by number equals reading the ? form by position, for any number of placeholders, exactly when no ? stands in quotes, in a comment, at the end of a word or before a digit or letter, and every $ of the query is mere text. |
| Rebind.AmbiguousIff | internal/metadata/store.go:245-248 | That condition, said of positions: some character is misread where it stands. |
| Rebind.QuotedPlaceholderChanges | internal/metadata/store.go:245-248 | Counterexample: a ? in a string literal is text on both databases, and the translation changes it. |
| EventQuery.BuildQuery | internal/metadata/events.go:57-73 | Query text and argument list for every filter, grown side by side. |
| EventQuery.QueryBindsItsArguments | internal/metadata/events.go:57-73 | On either database, reading the query as SQL: these seven columns of the events table, the job's ID and the host each in the condition of its own column and only if set, ordered by timestamp descending, limited only if positive. |
| EventQuery.QueryIsNotAmbiguous | internal/metadata/events.go:57-73 | Whichever filters are set, nothing in the query is misread once it is rebound. |
| EventQuery.AnswersArePages | internal/metadata/events.go:57-96 | On either database the possible answers, scanned back column by column, are exactly the limit-prefixes of the matching events ordered newest first. |
| ShellCmd.BuildLine | internal/plugin/shellcmd/shellcmd.go:23-29 | The loop builds the quoted arguments joined by single blanks. |
| ShellCmd.BuildReadsBack | internal/plugin/shellcmd/shellcmd.go:14-29 | A POSIX shell reads the built line as one command with exactly these arguments, empty strings and quotes included, and only NUL makes it fail. |
| ShellCmd.AndReadsBack | internal/plugin/filesystem/command.go:40-44 | Two built lines joined by an unquoted && read as exactly two AND-listed commands. |
| PluginCommands.TarLine | internal/plugin/filesystem/command.go:15-26 | The loop over the excludes builds a line that the shell reads as one tar command in the parent directory, with every exclude as written, archiving the base name. |
| PluginCommands.TarReadsBack | internal/plugin/filesystem/command.go:10-26 | Parent and base put together are the path without its final slash, the base holds no slash, and the shell reads exactly that tar command, unless - and only unless - the path or an exclude holds a NUL. |
| PluginCommands.TarArchivesBaseIff | internal/plugin/filesystem/command.go:15-26 | tar archives exactly the base name, from the parent directory and without the excludes, exactly when the base does not look like an option. |
| PluginCommands.BaseIsEmptyIff | internal/plugin/filesystem/command.go:16-19 | The base is empty exactly for the empty path, the root and a path ending in two slashes; the parent is the login directory exactly for a name without a slash and for the root. |
| PluginCommands.RemoveReadsBack | internal/plugin/filesystem/command.go:46-52 | The shell reads rm -rf with the path as its one operand, whatever it contains but a NUL. |
| PluginCommands.UntarReadsAsTwoCommands | internal/plugin/filesystem/command.go:40-44 | Whatever the NUL-free path contains, the line is mkdir with that path and then tar with that path. |
| SqlIdentifier.LexReadsBack | internal/plugin/mariadb/command.go:74-80 | Lexing a quoted identifier returns the name, embedded quotes included, and stops where it ends. |
| SqlIdentifier.StatementsReadBack | internal/plugin/postgres/command.go:59-74 | The create and drop statements name exactly the database they were built for. |
| PluginCommands.PgStatementsArrive | internal/plugin/postgres/command.go:15-65 | Shell, docker exec and SQL lexer in sequence: for every name and configuration psql in the named place, with the password, receives create or drop of the original name, and nothing at all exactly when there is a NUL or the container name is taken for an option. |
| PluginCommands.MariaStatementsArrive | internal/plugin/mariadb/command.go:20-73 | The same for MariaDB in all three modes. |
| PluginCommands.PgDelivers | internal/plugin/postgres/command.go:15-42 | Direct and docker modes run the same client argv in the named place with the password in its environment, exactly unless there is a NUL or a container name taken for an option. |
| PluginCommands.PgDumpArrives | internal/plugin/postgres/command.go:29-32 | The dump arrives as the argv pg_dump -U user database with the password in its environment, in the named place; it reads that database exactly when the name is taken as one. |
| PluginCommands.PgRestoreArrives | internal/plugin/postgres/command.go:37-40 | The restore arrives as the argv psql -U user database with stdin attached in the container; it connects to the named database exactly when the name is taken as one, and does not stop at errors. |
| PluginCommands.MariaDelivers | internal/plugin/mariadb/command.go:20-55 | Direct, docker exec -e and sh -c modes run the same client argv in the named place with the right MYSQL_PWD, exactly unless there is a NUL or a container name taken for an option. |
| PluginCommands.MariaDumpArrives | internal/plugin/mariadb/command.go:41-45 | The dump arrives as the argv of mariadb-dump with its five flags and its secret; it reads the named database exactly when the name is taken as one. |
| PluginCommands.MariaRestoreArrives | internal/plugin/mariadb/command.go:49-52 | The restore arrives as the argv mariadb -u user database with stdin attached in the container, connects to the named database exactly when the name is taken as one, and stops at errors. |
| Clients.RestoreConnectsIff | internal/plugin/postgres/command.go:37-40 | The client is psql or mariadb; the operand is taken as the database of that name exactly when it is not empty, no option and, for Postgres, no connection string; mariadb stops at errors, psql as called does not. |
| Clients.DumpConnectsIff | internal/plugin/postgres/command.go:29-32 | The client is pg_dump, or mariadb-dump with all five flags, and the same condition on the database name. |
| Clients.SqlIsRead | internal/plugin/postgres/command.go:49-57 | psql or mariadb reads the SQL of create and drop as such whatever it and the user name are, and an error in it is noticed. |
| Remote.ScriptHandsOver | internal/plugin/mariadb/command.go:15-30 | The script takes the password from the container's own variable and hands "$@" over untouched. |
| Remote.NoContainerWithDash | internal/plugin/mariadb/command.go:20-32 | No container whose name starts with a dash is ever the one docker exec runs in. |
| Base64.DecodeEncode64 | internal/plugin/informix/informix.go:137-142 | Base64 decoding returns every byte string. |
| Utf8.DecodeEncode | internal/plugin/informix/informix.go:178-197 | UTF-8 decoding returns every character, whatever follows it. |
| Json.ReadBackString | internal/plugin/informix/informix.go:178-197 | A string literal with the encoder's escapes is read back and stops at its own closing quote. |
| Json.UnmarshalMarshal | internal/plugin/informix/informix.go:178-197 | Decoding the encoding of any value of objects, lists, strings, integers and booleans returns it. |
| Dump.ReadBackCell | internal/plugin/informix/informix.go:137-162 | A cell's record decodes to the cell; only an empty byte string is lost to omitempty. |
| Dump.RestoredAsItWasIff | internal/plugin/informix/informix.go:144-176 | A cell comes back as it was exactly unless it is an empty byte string (empty text) or has no value without being NULL (NULL). |
| Dump.WriteDump | internal/plugin/informix/informix.go:178-197 | The nested loops write header and rows as one record a line, or report failure when the disk takes fewer. |
| Dump.ScanRecord | internal/plugin/informix/informix.go:256-260 | No record holds a line end, so the scanner returns exactly it, or reports it as too long from 64 MiB on. |
| Dump.DumpScanner.Scan | internal/plugin/informix/informix.go:256-260 | One line a call, its carriage return dropped; at the end or at a line over the bound it stops. |
| Dump.DumpReadsBack | internal/plugin/informix/informix.go:178-197 | Scanning what writeDump wrote gives the header and every row's parameters in order, exactly when every record fits the bound (and rows have one cell a column). |
| Insert.ReadBackInsert | internal/plugin/informix/informix.go:316-317 | For every valid table name and column count the statement reads as an insert into that table with one value a column. |
| Insert.ValidNameHasNo | internal/plugin/informix/config.go:12-18 | A valid table name holds only letters, digits, underscores and dots. |
| Insert.ValidTableNameIff | internal/plugin/informix/config.go:12-18 | Exactly the words, and the pairs of words with one dot between them, are accepted as table names. |
| InformixRestore.Agent.Insert | internal/plugin/informix/agentclient.go:114-138 | An accepted insert goes into the open transaction and leaves the committed tables alone, or is committed at once outside one; a lost acknowledgement does not undo it. |
| InformixRestore.InsertRows | internal/plugin/informix/informix.go:337-358 | The scan-parse-check-insert loop: its error, the attempts made and the session's tables. |
| InformixRestore.InsertAllSucceedsIff | internal/plugin/informix/informix.go:337-358 | No error exactly when all lines are read, each has the header's width and every insert is acknowledged. |
| InformixRestore.InsertAllAppends | internal/plugin/informix/informix.go:337-358 | Then the rows are appended to the one table, in order. |
| InformixRestore.FirstFaultDecides | internal/plugin/informix/informix.go:337-358 | The first line that is malformed, of another width or not acknowledged decides the error and the number of inserts attempted; without one the scanner does. |
| InformixRestore.Restore | internal/plugin/informix/informix.go:279-335 | Error, committed tables and the calls made to the agent, for every failure point and every outcome; no transaction stays open once the agent was dialled. |
| InformixRestore.HeaderFaultsAre | internal/plugin/informix/informix.go:279-302 | Each refusal before anything is connected under its own condition: file, scanner, JSON, missing table or columns, table name. |
| InformixRestore.RestoreIsAllOrNothing | internal/plugin/informix/informix.go:262-335 | The committed tables are as before or hold the whole artifact's rows in addition; a restore test changes nothing; a plain restore returning nil did append them. |
| InformixRestore.RestoreSucceedsIff | internal/plugin/informix/informix.go:279-335 | Success exactly when the artifact is sound, the server takes every row, and dial, connect, begin and (without a test) commit are acknowledged. |
| InformixRestore.FailedRestoreChangesNothingIff | internal/plugin/informix/informix.go:331-333 | A reported failure left the tables unchanged unless a commit went through whose acknowledgement was lost. |
| InformixRestore.RestoreCalls | internal/plugin/informix/informix.go:84-109 | After begin exactly one commit or rollback; after connect exactly one disconnect and then close; after a failed connect only close. |
| InformixRestore.DumpIsArtifactIff | internal/plugin/informix/informix.go:178-197 | A written dump is a sound artifact exactly when the records fit, the rows are rectangular and the header has a valid table and a column. |
| InformixRestore.DumpThenRestore | internal/plugin/informix/informix.go:279-335 | End to end: backup then restore appends exactly the dumped rows, exactly when every call is acknowledged. |
| InformixRestore.TablesAreNotTests | internal/plugin/informix/informix.go:304 | No valid table name is itself taken for a restore test. |
| Scratch.Restore | internal/plugin/postgres/postgres.go:111-141 | Create, load, drop with early returns: error and databases for every mix of command endings and failing statements, statements read as the server reads their text and the load going where the client connects. |
| Scratch.FailuresAre | internal/plugin/postgres/postgres.go:111-136 | Each failure under its own condition: no artifact, scratch database already there (then nothing changes), not created, not loaded. |
| Scratch.DropScratch | internal/plugin/postgres/postgres.go:148-152 | Best effort: a failing drop changes nothing and is not an error. |
| Scratch.ExecuteIs | internal/plugin/postgres/command.go:37-48 | A client that goes on after errors exits with 0 whatever fails, one that stops exactly when nothing fails; then the accepted statements took effect, in order. |
| Scratch.TestKeepsTheRest | internal/plugin/mariadb/mariadb.go:110-146 | A restore test leaves the set of databases as it was but for its own, which stays behind exactly when its drop fails or its create went through unreported; only the database the client connects to changes. |
| Scratch.TestOwnsOnlyItsScratchIff | internal/plugin/postgres/postgres.go:102-141 | For all databases, dumps and endings a restore test touches nothing that existed, exactly when its name is one that the client takes as a database name. |
| Scratch.ConnectionStringIsLoadedElsewhere | internal/plugin/postgres/command.go:37-40 | Counterexample: the test of a Postgres resource called dbname=app is loaded into app-bop-verify. |
| Scratch.TestSucceedsIff | internal/plugin/mariadb/mariadb.go:110-136 | A restore test succeeds exactly when the scratch name was free, create was acknowledged and the client, connected to some database, exited with 0; for psql that says nothing about the statements. |
| Scratch.PlainTouchesItsTarget | internal/plugin/postgres/postgres.go:129-141 | A plain restore touches the database it is loaded into alone; success leaves there what the server accepted of the dump. |
| Scratch.SuccessLeavesWholeDumpIff | internal/plugin/postgres/postgres.go:111-141 | Success means the whole dump is in place exactly when the client stops at errors or no statement failed, the name is taken as the database of that name, and it was no restore test (or its drop failed). |
| Scratch.FailedStatementsGoUnnoticed | internal/plugin/postgres/command.go:37-48 | Counterexample: any dump with a statement Postgres rejects restores with success and without it. |
| Scratch.RestoreAll | internal/controller/controller.go:397-401 | Any number of restores, one after the other: databases and errors. |
| Scratch.RunsOwnOnlyScratch | internal/plugin/postgres/postgres.go:102-152 | Over any sequence of restores with any endings, existing databases keep their contents until a request loads into them, and only scratch names of restore tests in the run come to be. |
| Scratch.ProperTestsLoadNothing | internal/plugin/postgres/postgres.go:102-152 | Restore tests whose names are taken as database names load into nothing that existed. |
| Scratch.LeftoverBlocksTests | internal/plugin/postgres/postgres.go:143-152 | A leftover stays through every later test of its name, and each of those fails. |
| Routing.SnapshotTable.ListSnapshots | internal/metadata/snapshots.go:23-45 | Exactly the host's rows, in some order, or an error. |
| Routing.SnapshotHost | internal/cli/restore.go:71-92 | The nested loops find exactly the inventory hosts with a matching ID: none, one, or all of them as ambiguous. |
| Routing.OneLookup | internal/cli/restore.go:73-86 | The outcome does not depend on the order the inventory is walked in. |
| Routing.Route | internal/cli/restore.go:41-51 | Which repository the command reads from, for every lookup result and flag. |
| Routing.StorageOfHost | internal/controller/controller.go:77-90 | A host's repository: the named one, the default one if its entry names none, an error for an unknown host or name. |
| Routing.RouteRefuses | internal/cli/restore.go:41-87 | The flag decides if given; otherwise matching snapshots of two inventory hosts, or a host that cannot be read, end the command. |
| Routing.RouteFollows | internal/cli/restore.go:41-92 | With every host readable the one inventory host whose snapshots match decides, and with none the default repository is read. |
| Routing.FullIdFindsItsHostIff | internal/cli/restore.go:79-84 | A full ID is found at its own host alone exactly when no other inventory host has an ID that it begins. |
| Routing.RunsKeepPlaced | internal/controller/controller.go:77-90 | Over any number of jobs with one inventory, IDs stay unique and each row's snapshot is in its host's repository. |
| Routing.RestoreFindsWhatWasStoredIff | internal/cli/restore.go:41-92 | With IDs of one length, restoring any recorded snapshot by its full ID reads from the repository that stored it, exactly unless its host's name is empty and that repository is not the default. |
| Routing.UnnamedServerIsRoutedElsewhere | internal/cli/restore.go:42-51 | Counterexample: one good backup of a server with an empty inventory name and its own repository is looked for in the default one, which does not hold it. |
| Updater.Host.Update | deploy/bop-update.sh:51-121 | Updater.Ran: at every crash point `current` is absent or names a complete release, unless it named the new tag's partial directory, and then the first change breaks it; how the run ends follows from its commands alone; a failed health check with a previous release and a working rollback restores it, any other swap leaves the new one; a healthy run leaves exactly the newest KEEP, the running release, the one before it and the partial directories. |
| Updater.ResultsAre | deploy/bop-update.sh:51-111 | Each of the nine ways a run can end under its own condition on the commands; rolled back exactly after a swap and a restart with a failed health check, a previous release and a working rollback. |
| Updater.ResultIs | deploy/bop-update.sh:117-121 | Every run ends like that, and its pruning ends well exactly if a directory is listed and each one from position KEEP on can be removed or is to stay. |
| Updater.HealthCheckRollsBack | deploy/bop-update.sh:100-111 | A failed health check with a previous release and a working rollback ends as rolled back, with current on that release and the new one unpacked. |
| Updater.LinkIs | deploy/bop-update.sh:91-111 | Unless the machine stops, current is the old release after every early end and after a rollback, and the new one after every other end. |
| Updater.ReleasesAre | deploy/bop-update.sh:82-121 | The release directories by result; after a deployment the listed ones from position KEEP on are gone but for the two protected, and all others are as before. |
| Updater.Host.Unpack | deploy/bop-update.sh:82-88 | Whether unpacking works follows from its commands; if so the new release is complete and nothing else changed but the partial directory. |
| Updater.Host.Prune | deploy/bop-update.sh:114-121 | The running release and the one before it, and every directory not listed as old, keep their contents; it fails exactly when a directory that is due cannot be removed. |
| Updater.Host.SwapTo | deploy/bop-update.sh:91-94 | The link is the old one or the new one at every moment. |
| Updater.PrunedKeepsTwoAndFew | deploy/bop-update.sh:112-121 | Pruning keeps the running release and the one before it as they were and leaves at most KEEP + 2 releases. |
| Updater.RollbackTargetSurvives | deploy/bop-update.sh:112-121 | After a deployment both the new release and the one it replaced are complete. |
| Updater.OnlyPartialFails | deploy/bop-update.sh:117-121 | If every directory looks partial the last pipeline fails: the release is deployed and the run still fails. |
| Updater.UpdateAll | deploy/bop-update.sh:51-121 | Over any number of runs, each cut off after any number of changes and starting from what the last one left, the link is sound after every one of them, as long as no tag ends like a partial directory. |
| Updater.StableTagsAreNotPartial | deploy/bop-update.sh:46-49 | Tags without a dash - the stable channel - never end like a partial directory. |
| Updater.ValidTagIff | deploy/bop-update.sh:49 | The accepted tags are exactly v, three numbers with dots between them, and at most a dash with letters, digits and dots after it. |
| Updater.PrereleaseTagsCanBePartial | deploy/bop-update.sh:49 | Counterexample: the accepted tags of a prerelease X-rc and X-rc.partial collide with each other's directories. |
| UseApi.Hook.OnResolve | web/src/hooks/useApi.ts:31-35 | A stale response changes nothing but what is pending; the newest one's value becomes the data, and loading ends if it was a load. |
| UseApi.Hook.OnReject | web/src/hooks/useApi.ts:36-40 | A failure never touches the data; only the newest request's, if it was a load, is shown and ends loading. |
| UseApi.Hook.DoRefresh | web/src/hooks/useApi.ts:45-58 | A background refresh leaves loading and error alone and supersedes everything under way. |
| UseApi.Hook.HappenAll | web/src/hooks/useApi.ts:27-58 | The hook under any interleaving of calls and responses is UseApi.Run of these actions. |
| UseApi.RunKeepsGuarded | web/src/hooks/useApi.ts:27-58 | For every interleaving the requests that write the data strictly increase, each was the newest when it wrote, and the data is the last one's. |
| UseApi.ErrorIsOfNewestLoad | web/src/hooks/useApi.ts:27-58 | For every interleaving an error on show is the failure of a load that was the newest request when it failed, with no load made since, or was there from the start. |
| UseApi.LoadingClearsIff | web/src/hooks/useApi.ts:31-40 | A response clears loading exactly when it answers the newest request and that is a load. |
| UseApi.LoadingStaysOnIff | web/src/hooks/useApi.ts:45-58 | While loading, the flag stays on whatever happens short of another load exactly when the newest request is no load still under way. |
| UseApi.RefreshSupersedes | web/src/hooks/useApi.ts:45-52 | A refresh while loading always leads to that case. |

## Left out

- SSH, gRPC, restic, SQL drivers, cron, Prometheus and HTTP serving: outcomes of calls are parameters.
- The `bop backup` command and several controllers on one store: they interleave with reconciliation, and leader
  election is only proposed.
- Event payload fields and timestamps inside the pipeline; durations and clock readings are parameters.
- Deletion of old events: the seal results assume all events of the job are stored.
- restic's `forget`: a snapshot row may outlive the snapshot in the repository.
- Json.Unmarshal: reads what the encoder can write plus white space; fractions, exponents, keys in another case and
  byte strings given as number lists, which only a foreign artifact could hold, count as malformed. The restore
  results hold for any decoder (`Dump.Reader`).
- Dump.WriteDump: the file size and its removal after a failure belong to the pipeline's temp-file results.
- InformixRestore.InsertAll: schema checks of the server are part of the outcome of each insert; SERIAL counters
  that advance in a rolled-back restore test are not modelled.
- UseApi.Hook.HappenAll: timers, page visibility and unmounting only decide when load and refresh are called.
- Updater.Host.Update: download, checksum and the busy check are one outcome each; the restart that follows a rollback
  is left out, and nothing is claimed about jobs that start between the busy check and the restart. Partial
  directories are not counted in KEEP+2.
- Scratch.Restore: the wording of remote errors; "already exists" is the reply to creating an existing database. Which
  statements of a dump the server rejects is a parameter.
- App.App.TriggerBackup: the resolved plugin configuration is looked up, its contents are not modelled; nor is JSON
  decoding of the request, which either yields host and plugin or fails.
- Plugin Verify and Health, the filesystem plugin's scratch directory and the logs plugin: existence checks that
  would add only easy members.
- Path cleaning, configuration defaults, token loading, React rendering, chart bucketing, generated protobuf code.
- Panics inside plugins: a crash of the process.
