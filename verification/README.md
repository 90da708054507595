# restic-scheduler, modelled and verified

restic-scheduler runs restic backups on cron schedules. A job names a repository, the paths to back up, database
blocks to dump before the backup and load after a restore, and scripts of its own. This project models the stateful
parts of the program and proves what they keep over whole runs:

- **Backup and restore** (`Jobs`, `Tasks`, `Pipeline`, `RoundTrip`, `NestedRoundTrip`, `Slices`). One ordered task list
  is read in two ways. The outside world (shell, restic, database tools, files, the repository) answers every action as
  it likes; only a successful answer is assumed to mean something (`Pipeline.Effect`). The main theorem is that a
  successful restore undoes any loss after a successful backup. Database command lines appear as tagged commands.
- **The restic command layer** (`Text`, `Utils`, `Arguments`, `ResticOptions`, `ResticCommand`, `CommandLines`,
  `Environment`, `CommandOutput`). Command lines decode uniquely and are what the option names say, environments are what
  last-wins lookup makes of them even though one Go map is shared and written, and captured output is followed through
  every division of a stream into writes.
- **The scheduler** (`Scheduling`, `SchedulingProtocol`, `SchedulingSafety`). The class `Scheduling.Scheduler` is what
  one caller sees. The protocol modules interleave any number of callers, critical section by critical section, with
  cron firings and finishing runs; both use the same state, `Started`, `Detached` and `StartFails`.
- **The program** (`Daemon`): choosing jobs by name, one-shot runs, the signal loop.
- **Health** (`Health`, `HealthAcrossReloads`): the consecutive-failure gauge and the last-result map against the history
  of runs, on their own and together with the scheduler's reloads.

`os.Environ`, `os.Stat`, the cron parser, Go's map iteration order, the capacity a reallocating `append` picks, and every
answer of the outside world are parameters or arbitrary choices.

## What the code does where its documentation, or a plain reading, says otherwise

- `README.md:84-88` says a hang-up stops scheduling, waits, and then reads the files again. `main.go:265-287` reads
  first, and a file that does not read leaves the running schedule alone. `Daemon.ServeSignals` follows the code.
- A stop leaves the job list and its names in place (`scheduler.go:100-126`). So the active names are stale after a
  stop, and a reload that fails after a stop starts the previous jobs again: `Scheduling.Scheduler.ReplaceJobs`.
- No overlap of old and new runs needs one call at a time and no immediate stop. `StopNowOverlaps` and
  `TwoCallersOverlap` are runs without these hypotheses; `TwoCallersRestartFails` reaches the refused restart, which
  `ReplaceAllOrPrevious` shows to be out of reach of a single controller.
- The cron library lets a job overlap itself. Then gauge and health can disagree for good
  (`Health.SelfOverlapDisagrees`). `HealthAgreesExactly` gives the condition on the order of events: the run counted last
  is the run completed last.
- A missing repository is recognised exactly when one single write to stderr holds the whole phrase. The stream
  alone does not decide it (`CommandOutput.DetectionDependsOnWrites`).
- A command line decodes exactly under conditions on tags, option keys and the first positional argument
  (`ResticCommand.DecodeExact`); `PositionalCollision` shows two backups restic cannot tell apart.
- Dump files of database blocks nested in a task are not backup paths of their own accord. They come back exactly if
  some configured path or own dump path covers them (`FileBackIffCovered`, `NestedLoadFindsIffCovered`); without, a
  database may stay lost (`UncoveredNestedStaysLost`). Nested Postgres blocks produce no task at all.
- `BuildEnv` writes the passphrase into the job's own map, which its scripts share. A script sees just the inherited
  environment, the job's configured map and its own exactly if the job has no map, or no passphrase, or the script sets
  that variable, or would have seen the same value anyway (`Environment.ScriptAfterRestic`); `PassphraseReachesScript`
  is an input where it does not.

## Model

| member | source | states |
|---|---|---|
| RoundTrip.RestoreUndoesLoss | job.go:129-253 | after a successful backup, any change to files and databases that keeps the repository, and a successful restore of "" or "latest", the database a MySQL or Postgres block names by host, port, database and tables, and the file a Sqlite block names, hold what they held when the backup started, for every block of the job |
| RoundTrip.BackupLossRestore | job.go:192-253 | the same with the two loops in one program: `RunBackup`, the loss of whatever one likes, `RunRestore`, for any number of blocks and any fair answers |
| RoundTrip.BackupSaves | job.go:192-222 | a successful backup leaves each block's content, dumped as of the start, in the newest snapshot, through user scripts and a forget that keeps the newest |
| RoundTrip.RestoreLoads | job.go:230-253 | a successful restore of the newest snapshot in place brings a block to what its saved dump holds, later loads included |
| RoundTrip.BackupAsks | job.go:192-222 | a successful backup asks restic for the configured paths and then every own dump path, with the configured options or none, after each own block was dumped to its own path |
| RoundTrip.RestoreAsks | job.go:230-253 | a successful restore asks for the snapshot named, "latest" for none, with the configured options or none, and loads each own block from its own path after that |
| RoundTrip.OneSnapshotInOrder | job.go:192-222 | in every run, wherever it fails: at most one backup is attempted, of all backup paths, after every dump and pre script has succeeded; success means it succeeded; initialising follows exactly a listing that found no repository; a job with a forget ends a successful run with it, one without never forgets |
| RoundTrip.FailedForget | job.go:215-219 | a run that fails after all its tasks succeeded failed in the forget, its last event |
| RoundTrip.SnapshotOrder | job.go:202-219 | fail-fast order of any plan made of a head, one backup, a tail and at most one forget |
| RoundTrip.DumpsBeforeLoadsAfter | job.go:129-170 | the job's tasks hold exactly one backup task; every dump stands before it and every load after it; each own block has both |
| RoundTrip.FairlyBackUp | job.go:192-222 | a run of `RunBackup` against fair answers meets what the theorem assumes of it |
| RoundTrip.FairlyRestore | job.go:230-253 | a run of `RunRestore` against fair answers meets what the theorem assumes of it |
| NestedRoundTrip.RestoreUndoesNestedLoss | tasks.go:450-487 | the round trip for each MySQL and each Sqlite block nested in a task, for those whose dump file is covered by a backup path |
| NestedRoundTrip.CoveredExactly | job.go:172-189 | covered means under a configured path or under the dump path of an own block: nested dump paths are not included |
| NestedRoundTrip.FileBackIffCovered | job.go:192-253 | over whole runs: a file lost after a successful backup is there again after the restore of a successful run exactly if it was there at the backup and a backup path covers it |
| NestedRoundTrip.NestedLoadFindsIffCovered | job.go:173-253 | so each load of a nested block finds its lost dump file exactly if a backup path covers it |
| NestedRoundTrip.UncoveredNestedStaysLost | tasks.go:450-487 | for all paths, data and tools: a job with one uncovered nested block that meets every other hypothesis, and is gone after backup, loss and restore, whether or not the load reports an error |
| NestedRoundTrip.NestedPlanned | tasks.go:450-487 | every nested MySQL and Sqlite block is dumped to its path by the pre tasks and loaded from it by the post tasks |
| NestedRoundTrip.NestedPostgresIdle | tasks.go:450-487 | tasks without such blocks do nothing but run scripts, so nested Postgres blocks take no part |
| NestedRoundTrip.NestedSaved | tasks.go:450-467 | a covered nested block's content reaches the newest snapshot |
| NestedRoundTrip.NestedLoaded | tasks.go:470-487 | a restore brings a nested block back to its saved dump |
| Pipeline.RunBackup | job.go:192-222 | every run is `EnsureInit`, then the plan of all tasks and the forget up to the first failure, and returns success exactly if all of it was done; a successful run of a job with a forget ends with it |
| Pipeline.RunRestore | job.go:230-253 | every run lists snapshots, stops there exactly if the repository is missing, and then follows the restore plan up to the first failure |
| Pipeline.EnsureInit | restic.go:368-376 | initialises exactly when the listing reports a missing repository, ignores other errors, and fails only if that initialisation fails |
| Pipeline.BackupTasks | job.go:202-213 | the tasks done are a prefix of the list ending at the failure |
| Pipeline.RestoreTasks | job.go:238-250 | the same on restore |
| Tasks.AllTasks | job.go:129-170 | dumps of MySQL, Postgres, Sqlite blocks, tasks' pre lists, the backup, tasks' post lists, loads in the same block order; each dump and load names its block's own host, port, database, tables and path, and both of a Postgres block carry its password |
| Tasks.GetPreTasks | tasks.go:450-467 | MySQL and Sqlite dumps, block by block, then pre scripts; Postgres blocks yield nothing |
| Tasks.GetPostTasks | tasks.go:470-487 | post scripts, then MySQL and Sqlite loads, block by block; Postgres blocks yield nothing |
| Tasks.TasksInOrder | job.go:140-165 | what a task contributes, before the backup and after it, stands before what any later task contributes there |
| Tasks.BackupPathsAre | job.go:173-189 | the backup paths are the configured paths and then the dump path of every own block |
| Tasks.DumpTaskActions | tasks.go:139-196 | pre tasks of database blocks dump each block once on backup and do nothing on restore |
| Tasks.LoadTaskActions | tasks.go:36-61 | post tasks of database blocks do nothing on backup and load each block once on restore |
| Tasks.UserOnBackup | tasks.go:36-56 | on backup a task's scripts run their non-empty backup texts, in order |
| Tasks.UserOnRestore | tasks.go:36-61 | on restore they run their non-empty restore texts, in order |
| Tasks.BackupReading | job.go:202-213 | the task list read for a backup is every dump, tasks' pre actions, one backup, tasks' post actions |
| Tasks.RestoreReading | job.go:238-250 | the same list read for a restore is tasks' pre actions, one restore, tasks' post actions, every load |
| Tasks.NestedOnBackup | tasks.go:450-487 | nested parts do only scripts and dumps before the backup and only scripts after it |
| Tasks.NestedOnRestore | tasks.go:450-487 | nested parts do only scripts before the restore and only scripts and loads after it |
| Slices.AppendAll | job.go:176-178 | appending in place or into new arrays yields the old contents and the new paths, and touches only spare cells, with values fixed by their position |
| Slices.BackupPathsOn | job.go:173-189 | one call returns the configured paths and all own dump paths whatever capacity is spare |
| Slices.BackupPathsRepeated | job.go:173-189 | any number of calls, one after the other, leave the configured paths and all earlier results as they were, though results share one array |
| Slices.OverlappingCalls | job.go:173-189 | the same for calls that overlap, interleaved append by append, some in place and some in arrays of their own: at every moment each has built the configured paths and what it has appended |
| Slices.BackupPathsOverlapping | job.go:173-189 | so a call that has finished holds all backup paths while others are under way |
| Slices.StaysFilled | job.go:174-178 | why: a slice over the shared array reads the same after another call has filled the same cells |
| Jobs.CheckDumpPath | tasks.go:323-342 | accepts exactly a path that is given and is absent or a regular file |
| Jobs.CheckDatabase | tasks.go:110-137 | also refuses tables without a database |
| Jobs.CheckRestic | job.go:32-48 | accepts exactly one of passphrase and password file |
| Jobs.ValidateTasks | job.go:71-97 | accepts exactly jobs whose tasks and blocks are all valid |
| Jobs.Validate | job.go:100-126 | accepts exactly the valid jobs, whose schedule parses |
| Jobs.ParseConfig | config.go:89-105 | accepts exactly a file that decodes to valid jobs only |
| Jobs.ReadJobs | main.go:21-40 | succeeds exactly if every file is good and they hold some job between them, with all jobs in order; good files without any job have their own error |
| Jobs.JobsInFileOrder | main.go:24-32 | the jobs of each file stand in the result as one block, in its place among the files |
| Jobs.ReadJobsValid | config.go:99-105 | every job that passes on to the scheduler is valid |
| Scheduling.Scheduler.Start | scheduler.go:37-67 | succeeds exactly on a stopped scheduler with schedulable jobs, then runs a new cron with exactly these; an error names its reason and changes nothing |
| Scheduling.Scheduler.StopNow | scheduler.go:101-112 | detaches and stops the cron, leaves its runs in flight and the job list in place |
| Scheduling.Scheduler.StopGraceful | scheduler.go:115-126 | detaches and stops the cron and leaves nothing of it in flight |
| Scheduling.Scheduler.RestartPrevious | scheduler.go:81-92 | the fallback: recovered exactly if the scheduler is stopped and the previous jobs can be scheduled |
| Scheduling.Scheduler.ReplaceJobs | scheduler.go:71-98 | all or previous, decided by whether the new jobs can be scheduled and whether there were previous ones; the restart never fails; nothing old is left in flight |
| Scheduling.Scheduler.ActiveJobNames | scheduler.go:129-137 | the names of the jobs last started, which are those of the attached cron's entries |
| Scheduling.Cron.AwaitDone | scheduler.go:123-124 | ends with nothing in flight, whatever order runs finish in |
| Scheduling.StartFailsOrNot | scheduler.go:41-53 | an error of `Start` applies exactly if it is started or some job cannot be scheduled |
| SchedulingProtocol.StartErrorOf | scheduler.go:41-53 | the deterministic choice of that error: the first refused job |
| SchedulingProtocol.NoCronOrphaned | scheduler.go:37-126 | any number of callers, any interleaving: every cron ever started is exactly one of attached, held by exactly one caller about to stop it, and stopped; started holds exactly while one is attached; its entries and the names match the jobs |
| SchedulingProtocol.InvStep | scheduler.go:37-126 | the invariant behind it is kept by every step of every caller, every firing and every finished run |
| SchedulingProtocol.InvRuns | scheduler.go:37-126 | and so over every run from every state that meets it |
| SchedulingSafety.NoOverlap | scheduler.go:71-98 | with calls one at a time and no immediate stop, only the newest cron ever has runs in flight, rollback included |
| SchedulingSafety.OrderlyStep | scheduler.go:71-126 | the invariant behind it is kept by every such step |
| SchedulingSafety.SingleController | main.go:262-301 | the calls of one controller come one at a time |
| SchedulingSafety.StopNowOverlaps | scheduler.go:101-112 | a run with an immediate stop in which old and new runs overlap, for any job |
| SchedulingSafety.TwoCallersOverlap | scheduler.go:115-126 | a run with two callers and only graceful stops in which they overlap |
| SchedulingSafety.TwoCallersRestartFails | scheduler.go:81-88 | a run with two callers that ends in the refused restart |
| SchedulingSafety.ReplaceAllOrPrevious | scheduler.go:71-98 | in every interleaving of one controller's reload with firings and finishing runs: new jobs exactly if all can be scheduled, else the previous ones started again, else none; the refused restart is out of reach |
| SchedulingSafety.ReloadsServe | main.go:262-287 | between reloads the scheduler is started with exactly the jobs of the last one, in every interleaving |
| SchedulingSafety.MainServes | main.go:242-287 | the same from the start of the program, with no overlap and no rollback ever reached |
| SchedulingSafety.StopDrains | scheduler.go:115-126 | a stopped cron never starts a run again; runs in flight plus runs finished since are constant, with any number of callers |
| SchedulingSafety.WaitEnds | scheduler.go:122-125 | the wait of a graceful stop ends exactly when as many runs have finished as were in flight; until then one can |
| Daemon.FilterJobs | main.go:43-65 | with "all" among the names every job and no error; otherwise the jobs at the first positions of requested names, in configuration order, and, exactly if some requested name has no job, an error with exactly these names |
| Daemon.FilteredExact | main.go:49-57 | the filtered jobs are those at the first positions of requested names, in configuration order, and no others |
| Daemon.RunPhase | main.go:67-128 | without error the operation was done on exactly the jobs the flag asks for, with "all" every job; a failed operation ends the phase; missing names are reported only after every found job has run |
| Daemon.JobsFor | main.go:67-128 | the jobs a flag stands for: none if it is empty, every job if "all" is among its names, else the first job of each name |
| Daemon.InVain | main.go:59-62 | the names of a flag without "all" that no job has |
| Daemon.RunSpecifiedJobs | main.go:157-174 | unlocks, backups, restores; an error in one phase keeps later phases from starting |
| Daemon.OneShotTrace | main.go:67-174 | for any failure points the trace is a prefix of all selected operations; it is all of them with every name found exactly if there is no error, and then each phase was done on all jobs its own flag asks for, with "all" on every job in configuration order; a failed one is last; missing names come from the first phase that misses any |
| Daemon.ServeSignals | main.go:262-301 | between signals the scheduler is started with exactly the job set of the last successful reading; no reload is ever refused; an interrupt stops the cron and leaves its runs in flight, the other stop signals wait for them |
| Daemon.RunProgram | main.go:204-302 | starting the scheduler never fails; jobs fail before serving or not at all; it serves the last good job set until a stop signal |
| Health.Board.Run | job.go:261-305 | a failed backup counts and is reported as failed with its own error; an error listing snapshots is only reported, and only when the backup succeeded |
| Health.TrailingFailures | job.go:298-302 | the longest block of failures at the end of a history |
| Health.GaugeCounts | job.go:298-302 | in any interleaving the gauge is the trailing block of failures in the order runs were counted |
| Health.ResultIsLast | scheduler.go:153-192 | in any interleaving the last result is that of the run completed last, absent exactly if there is none, and the answer is its status and its error as the message, or "Unknown job" |
| Health.HealthAgrees | scheduler.go:162-200 | without overlap of same-name runs, other jobs anywhere in between: when no run is in flight the gauge is the trailing block of failures, and the status is 404 before the first completed run, 503 exactly while that block is not empty, and 200 otherwise |
| HealthAcrossReloads.HealthAgreesAcrossReloads | job.go:261-305 | the same over runs of the whole scheduler protocol: with one call at a time, no immediate stop, one job per name in a list and no job fired while itself in flight, runs of one name never overlap, across any reloads |
| HealthAcrossReloads.FiredWhenQuiet | scheduler.go:71-98 | why: when a cron fires a job, no run of that name is in flight in it or in any earlier cron |
| Health.HealthAgreesExactly | job.go:298-304 | with overlaps allowed, at any moment: status and gauge agree however the runs went exactly if the run counted last is the run completed last; otherwise some outcomes of the same events make them disagree |
| Health.SelfOverlapDisagrees | scheduler.go:45-53 | two overlapping runs of one job after which health says unavailable and the gauge says zero |
| ResticCommand.DecodeExact | restic.go:261-273 | for every iteration order, reading the command line from left to right gives back the call up to normal form exactly if tags, keys and the first positional are plain |
| ResticCommand.DecodeItself | restic.go:261-273 | where no number is negative and a global block is given, it gives back the call itself exactly then |
| ResticCommand.SameArgvSameCall | restic.go:261-273 | two such calls with one command line are the same call up to normal form |
| ResticCommand.DecodeCommandExact | restic.go:299-327 | the same for the command, its options and its positionals |
| ResticCommand.ScanGlobals | restic.go:266-271 | the global options end at the repository flag and read back exactly if no key holds an equals sign |
| ResticCommand.PositionalCollision | restic.go:299-303 | two different backups with one command line |
| ResticCommand.BuildArgv | restic.go:266-273 | the assembled arguments are the laid-out call for the order the range took |
| ResticCommand.OptionsToArgs | restic.go:299-327 | each command gets the encoding of its own options |
| ResticOptions.GlobalToArgs | restic.go:187-205 | lays out all twelve global options, the map in the order visited |
| ResticOptions.ForgetToArgs | restic.go:122-169 | lays out all fifteen forget options |
| ResticOptions.RestoreToArgs | restic.go:82-92 | lays out the seven restore options |
| ResticOptions.BackupToArgs | restic.go:62-69 | lays out the four backup options |
| ResticOptions.UnlockToArgs | restic.go:47-51 | lays out the unlock option |
| ResticOptions.ForgetRowsRead | restic.go:122-169 | the forget record reads back in normal form exactly if its tags are plain |
| ResticOptions.GlobalRowsRead | restic.go:187-205 | the global record reads back in normal form exactly if no option key holds an equals sign |
| ResticOptions.ReadOptionsExact | restic.go:200-202 | the option map, each value in quotes, reads back for every iteration order exactly if no key holds an equals sign |
| ResticOptions.ReadTagsExact | restic.go:94-98 | tag lists read back exactly if no tag holds a comma and none is the list of one empty tag |
| ResticOptions.ReadNumbers | utils.go:53-59 | numbers and durations read back, non-positive ones as absent |
| CommandLines.ArgvIs | restic.go:261-273 | the whole command line, token by token: global options, the repository, the command, its options by name and in order, its positionals |
| CommandLines.GlobalTokens | restic.go:187-205 | the twelve global options under their names, only what is set, each map entry as key, equals sign and value in quotes |
| CommandLines.ForgetTokens | restic.go:122-169 | the fifteen forget options under their names, only positive numbers, tags of a list joined by commas |
| CommandLines.RestoreTokens | restic.go:82-92 | the seven restore options under their names |
| CommandLines.BackupTokens | restic.go:62-69 | the four backup options under their names |
| CommandLines.NothingSet | tasks.go:374-407 | a backup or restore without an option block gives restic no option |
| CommandLines.NothingGlobal | restic.go:266-268 | nor does an absent or empty block of global options |
| CommandLines.NothingKept | restic.go:122-169 | a forget with no positive number, no tags and no pruning is the bare command |
| Arguments.ScanEncoded | utils.go:45-75 | a scanner takes every laid-out option list apart again, in front of any rest, and the values come back option by option |
| Text.ParseDecimalRoundTrip | utils.go:53-59 | a printed natural number is all digits, without a leading zero, and reads back as itself |
| Utils.NewSetFrom | utils.go:13-20 | the set of exactly the listed names |
| Utils.MergeEnvMap | utils.go:22-34 | child over parent for every iteration order |
| Utils.EnvMapToList | utils.go:36-43 | one entry per name, in the order the range visited them |
| Utils.MaybeAddArgsList | utils.go:69-75 | the option once per value, after what was there |
| Environment.EntriesOverride | restic.go:225-231 | for every iteration order, last-wins lookup sees the inherited environment overridden by the map exactly if no name holds an equals sign |
| Environment.ShellEnvironment | shell.go:122-127 | the same for a shell, with or without a list being built |
| Environment.ScriptEnvironment | tasks.go:36-51 | a script sees the inherited environment overridden by the job's overridden by its own, exactly if all names are free of equals signs |
| Environment.Restic.BuildEnv | restic.go:216-232 | the command sees the inherited environment overridden by the map overridden by a non-empty passphrase, which goes out as RESTIC_PASSWORD; a shared map keeps the passphrase, a nil one stays nil |
| Environment.RunCommands | restic.go:216-232 | any number of calls by any number of values sharing one map all see the same environment, and the map is fixed after the first |
| Environment.ScriptAfterRestic | job.go:192-213 | after the first restic command a script sees the inherited environment overridden by the job's configured map overridden by its own exactly if names are plain and the job has no map, or no passphrase, or the script sets the password variable itself, or would have seen that passphrase anyway |
| Environment.SameOverrideExactly | restic.go:221-223 | the condition behind it, on maps: with the passphrase put in, every name reads as before exactly then |
| Environment.PassphraseReachesScript | restic.go:216-232 | an input where it fails: a job with an empty map, any passphrase, and a script that sets nothing |
| CommandOutput.CapturedLogWriter.Write | shell.go:70-78 | records the pieces of each write on its own and reports its length |
| CommandOutput.Capture | restic.go:277-283 | a stream captured write by write, for any division of it |
| CommandOutput.JoinedLines | shell.go:70-78 | captured lines joined by newlines are the writes joined by newlines |
| CommandOutput.FlattenedLines | shell.go:70-78 | captured lines joined by nothing are the whole stream without newlines, for every division into writes |
| CommandOutput.Classify | restic.go:283-294 | a failure is a missing repository exactly if a single write holds the whole phrase restic prints |
| CommandOutput.DetectionDependsOnWrites | restic.go:286-291 | for every stream: some division into writes is detected exactly if the stream holds the phrase, and some division, one character at a time, never is |
| CommandOutput.SnapshotText | restic.go:342-352 | the text parsed depends only on the whole stream once there was a write; without one there is none |
| CommandOutput.LinesMergedWith | shell.go:81-89 | the lines of both streams, each as often as captured; of any two, the earlier is a prefix of the later or has the smaller character where they first differ |
| CommandOutput.SortedUnique | shell.go:86 | that determines the result |

## Left out

- Processes, files, signals delivered by the operating system and their coalescing, clocks, HTTP routing, the JSON and Prometheus text formats, the push gateway, loggers.
- restic, the shell and the database tools themselves: `Pipeline.Effect` says what a successful action is assumed to do. A user's script may do anything; theorems that need more say so (`ScriptsSpare`).
- The text of database command lines (`tasks.go:139-364`): a dump and a load are tagged with the block's source and dump path. Users and passwords are not part of what a source is; two spellings of one host count as two servers.
- Several blocks over one server may share data: `Pipeline.Overlap` says when, and `RoundTrip.Independent` excludes it. With overlapping sources or equal dump paths the last load wins and the round trip is not claimed.
- HCL decoding and its `env` and `readfile` functions (`config.go:45-91`); a file decodes to jobs or does not.
- The default configuration block: it is assigned to a loop copy in `config.go:30-35`, and `ParseConfig` does not call that method.
- The fields behind `Job.Healthy`: `Run` has a value receiver, so its writes to them are never observed (`job.go:255-274`).
- Start times, snapshot counts and times, and `RefreshMetrics`: single assignments.
- Parsing cron expressions and deciding when to fire: a predicate on schedules and arbitrary firings. That `AddJob` accepts what `ParseStandard` accepts is a hypothesis of `Daemon`.
- The reading back of durations: `time.Duration.String` is assumed to be readable for positive durations (`ResticOptions.Faithful`).
- Integer widths: counts and durations are unbounded; only their sign and decimal text matter here.
- Daemon.ServeSignals: one caller at a time, without firings in between; `SchedulingSafety.MainServes` has the interleavings.
- Daemon.RunPhase: an operation is one step that succeeds or fails; `Pipeline` has what a backup or restore does inside.
- Scheduling.Cron.AwaitDone: assumes that every run ends.
- Slices.BackupPathsRepeated: calls follow one another; `Slices.OverlappingCalls` has overlapping ones, with one `append` as one step.
- Environment.RunCommands: commands follow one another. Two runs of one job at once would write the shared Go map at the same time, which Go does not define.
- Environment.ScriptAfterRestic: one run of the job; the same holds of later ones, since the map does not change again.
- Health.Board.Run: one run from start to end; runs that overlap are the events below it in the module.
