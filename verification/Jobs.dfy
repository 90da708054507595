/** Job configuration (job.go, tasks.go) and the checks a configuration file passes before its jobs are used (config.go, main.go). */
module Jobs {
  import opened Wrappers
  import opened ResticOptions

  /** `env` is absent when the configuration leaves the map nil. */
  datatype ResticConfig = ResticConfig(
    repo: string, passphrase: string, env: Option<map<string, string>>, globalOpts: Option<ResticGlobalOpts>)

  /** A user's script block. */
  datatype JobTaskScript = JobTaskScript(
    onBackup: string, onRestore: string, cwd: string, env: map<string, string>, name: string)

  datatype JobTaskMySQL = JobTaskMySQL(
    port: int, name: string, hostname: string, database: string, username: string, password: string,
    tables: seq<string>, noTablespaces: bool, skipSsl: bool, dumpToPath: string, useMariaDb: bool)

  datatype JobTaskPostgres = JobTaskPostgres(
    port: int, name: string, hostname: string, database: string, username: string, password: string,
    tables: seq<string>, dumpToPath: string, noTablespaces: bool, clean: bool, create: bool)

  datatype JobTaskSqlite = JobTaskSqlite(name: string, path: string, dumpToPath: string)

  datatype BackupFilesTask = BackupFilesTask(
    paths: seq<string>, backupOpts: Option<BackupOpts>, restoreOpts: Option<RestoreOpts>, name: string)

  datatype JobTask = JobTask(
    name: string, preScripts: seq<JobTaskScript>, postScripts: seq<JobTaskScript>,
    mysql: seq<JobTaskMySQL>, postgres: seq<JobTaskPostgres>, sqlite: seq<JobTaskSqlite>)

  datatype Job = Job(
    name: string, schedule: string, config: Option<ResticConfig>, tasks: seq<JobTask>,
    backup: BackupFilesTask, forget: Option<ForgetOpts>,
    mysql: seq<JobTaskMySQL>, postgres: seq<JobTaskPostgres>, sqlite: seq<JobTaskSqlite>)

  // ----- Validation --------------------------------------------------------------------------------

  datatype FileState = Absent | NotDirectory | Directory | Unreadable

  /** What validation asks of its surroundings: `cron.ParseStandard` and `os.Stat`. */
  datatype Checks = Checks(parses: string -> bool, stat: string -> FileState)

  datatype ConfigError = MissingField | MutuallyExclusive | InvalidConfigValue

  predicate DumpPathOk(path: string, checks: Checks) {
    path != "" && (checks.stat(path).Absent? || checks.stat(path).NotDirectory?)
  }

  predicate TablesOk(tables: seq<string>, database: string) {
    tables != [] ==> database != ""
  }

  function CheckDumpPath(path: string, checks: Checks): (err: Option<ConfigError>)
    ensures err.None? <==> DumpPathOk(path, checks)
    ensures err.Some? ==> err.value == if path == "" then MissingField else InvalidConfigValue
  {
    if path == "" then Some(MissingField)
    else
      match checks.stat(path)
      case Absent => None
      case NotDirectory => None
      case Directory => Some(InvalidConfigValue)
      case Unreadable => Some(InvalidConfigValue)
  }

  /** `Validate` of the two server databases. */
  function CheckDatabase(path: string, tables: seq<string>, database: string, checks: Checks): (err: Option<ConfigError>)
    ensures err.None? <==> DumpPathOk(path, checks) && TablesOk(tables, database)
    ensures err == Some(MissingField) <==> path == "" || (DumpPathOk(path, checks) && !TablesOk(tables, database))
  {
    var err := CheckDumpPath(path, checks);
    if err.Some? then err
    else if |tables| > 0 && database == "" then Some(MissingField)
    else None
  }

  function PasswordFile(c: ResticConfig): string {
    if c.globalOpts.Some? then c.globalOpts.value.passwordFile else ""
  }

  /** `ResticConfig.Validate`: the passphrase is given in exactly one of the two ways. */
  function CheckRestic(c: ResticConfig): (err: Option<ConfigError>)
    ensures err.None? <==> ((c.passphrase != "") != (PasswordFile(c) != ""))
    ensures err.Some? ==> err.value == MutuallyExclusive
  {
    if c.passphrase == "" && (c.globalOpts.None? || c.globalOpts.value.passwordFile == "") then Some(MutuallyExclusive)
    else if c.passphrase != "" && c.globalOpts.Some? && c.globalOpts.value.passwordFile != "" then Some(MutuallyExclusive)
    else None
  }

  ghost predicate ValidTasks(j: Job, checks: Checks) {
    && (forall t :: t in j.tasks ==> t.name != "")
    && (forall t :: t in j.mysql ==> DumpPathOk(t.dumpToPath, checks) && TablesOk(t.tables, t.database))
    && (forall t :: t in j.postgres ==> DumpPathOk(t.dumpToPath, checks) && TablesOk(t.tables, t.database))
    && (forall t :: t in j.sqlite ==> DumpPathOk(t.dumpToPath, checks))
  }

  ghost predicate ValidJob(j: Job, checks: Checks) {
    && j.name != ""
    && checks.parses(j.schedule)
    && j.config.Some?
    && ((j.config.value.passphrase != "") != (PasswordFile(j.config.value) != ""))
    && ValidTasks(j, checks)
    && j.backup.paths != []
  }

  method ValidateTasks(j: Job, checks: Checks) returns (err: Option<ConfigError>)
    ensures err.None? <==> ValidTasks(j, checks)
  {
    for i := 0 to |j.tasks|
      invariant forall k :: 0 <= k < i ==> j.tasks[k].name != ""
    {
      if j.tasks[i].name == "" {
        assert j.tasks[i] in j.tasks;
        return Some(MissingField);
      }
    }
    for i := 0 to |j.mysql|
      invariant forall t :: t in j.mysql[..i] ==> DumpPathOk(t.dumpToPath, checks) && TablesOk(t.tables, t.database)
    {
      var t := j.mysql[i];
      assert t in j.mysql;
      err := CheckDatabase(t.dumpToPath, t.tables, t.database, checks);
      if err.Some? {
        return;
      }
    }
    for i := 0 to |j.postgres|
      invariant forall t :: t in j.postgres[..i] ==> DumpPathOk(t.dumpToPath, checks) && TablesOk(t.tables, t.database)
    {
      var t := j.postgres[i];
      assert t in j.postgres;
      err := CheckDatabase(t.dumpToPath, t.tables, t.database, checks);
      if err.Some? {
        return;
      }
    }
    for i := 0 to |j.sqlite|
      invariant forall t :: t in j.sqlite[..i] ==> DumpPathOk(t.dumpToPath, checks)
    {
      var t := j.sqlite[i];
      assert t in j.sqlite;
      err := CheckDumpPath(t.dumpToPath, checks);
      if err.Some? {
        return;
      }
    }
    err := None;
  }

  /** `Job.Validate`. */
  method Validate(j: Job, checks: Checks) returns (err: Option<ConfigError>)
    ensures err.None? <==> ValidJob(j, checks)
    ensures j.name == "" ==> err == Some(MissingField)
    ensures j.config.None? || j.backup.paths == [] ==> err.Some?
    ensures j.name != "" && !checks.parses(j.schedule) ==> err == Some(InvalidConfigValue)
  {
    if j.name == "" {
      return Some(MissingField);
    }
    if !checks.parses(j.schedule) {
      return Some(InvalidConfigValue);
    }
    if j.config.None? {
      return Some(MissingField);
    }
    err := CheckRestic(j.config.value);
    if err.Some? {
      return;
    }
    err := ValidateTasks(j, checks);
    if err.Some? {
      return;
    }
    if |j.backup.paths| == 0 {
      return Some(InvalidConfigValue);
    }
    err := None;
  }

  // ----- Reading configuration files ---------------------------------------------------------------

  /** What decoding one configuration file yields; decoding itself is not modelled. */
  datatype FileContent = Undecodable | Decoded(jobs: seq<Job>)

  datatype ReadError = DecodeFailed | InvalidJob(error: ConfigError) | NoJobs

  ghost predicate GoodFile(file: FileContent, checks: Checks) {
    file.Decoded? && forall j :: j in file.jobs ==> ValidJob(j, checks)
  }

  /** `ParseConfig` after decoding. */
  method ParseConfig(file: FileContent, checks: Checks) returns (r: Result<seq<Job>, ReadError>)
    ensures r.Ok? <==> GoodFile(file, checks)
    ensures r.Ok? ==> r.value == file.jobs
    ensures r == Err(DecodeFailed) <==> file.Undecodable?
    ensures r != Err(NoJobs)
  {
    if file.Undecodable? {
      return Err(DecodeFailed);
    }
    if |file.jobs| == 0 {
      return Ok([]);
    }
    for i := 0 to |file.jobs|
      invariant forall k :: 0 <= k < i ==> ValidJob(file.jobs[k], checks)
    {
      var err := Validate(file.jobs[i], checks);
      if err.Some? {
        assert file.jobs[i] in file.jobs;
        return Err(InvalidJob(err.value));
      }
    }
    r := Ok(file.jobs);
  }

  /** The jobs of all files that decode, in order. */
  function JobsOf(files: seq<FileContent>): seq<Job> {
    if files == [] then []
    else
      var last := files[|files| - 1];
      JobsOf(files[..|files| - 1]) + if last.Decoded? then last.jobs else []
  }

  /** A file's own jobs stand in the result as one block, in its place among the files. */
  lemma {:induction false} JobsInFileOrder(before: seq<FileContent>, file: FileContent, after: seq<FileContent>)
    ensures JobsOf(before + [file] + after) == JobsOf(before) + (if file.Decoded? then file.jobs else []) + JobsOf(after)
    decreases |after|
  {
    var all := before + [file] + after;
    if after == [] {
      assert all[..|all| - 1] == before;
    } else {
      var n := |after| - 1;
      assert all[..|all| - 1] == before + [file] + after[..n];
      JobsInFileOrder(before, file, after[..n]);
    }
  }

  /** A set of files `ReadJobs` accepts: every file good, and some job in them. */
  ghost predicate Readable(files: seq<FileContent>, checks: Checks) {
    (forall f :: f in files ==> GoodFile(f, checks)) && JobsOf(files) != []
  }

  method ReadJobs(files: seq<FileContent>, checks: Checks) returns (r: Result<seq<Job>, ReadError>)
    ensures r.Ok? <==> Readable(files, checks)
    ensures r.Ok? ==> r.value == JobsOf(files)
    ensures r == Err(NoJobs) <==> (forall f :: f in files ==> GoodFile(f, checks)) && JobsOf(files) == []
  {
    var allJobs: seq<Job> := [];
    for i := 0 to |files|
      invariant allJobs == JobsOf(files[..i])
      invariant forall f :: f in files[..i] ==> GoodFile(f, checks)
    {
      assert files[i] in files;
      var jobs := ParseConfig(files[i], checks);
      if jobs.Err? {
        return Err(jobs.error);
      }
      assert files[..i + 1][..i] == files[..i];
      allJobs := allJobs + jobs.value;
    }
    assert files[..|files|] == files;
    if |allJobs| == 0 {
      return Err(NoJobs);
    }
    r := Ok(allJobs);
  }

  /** Every job that reaches the scheduler through `ReadJobs` is valid. */
  lemma {:induction false} ReadJobsValid(files: seq<FileContent>, checks: Checks)
    requires forall f :: f in files ==> GoodFile(f, checks)
    ensures forall j :: j in JobsOf(files) ==> ValidJob(j, checks)
  {
    if files != [] {
      assert files[|files| - 1] in files;
      ReadJobsValid(files[..|files| - 1], checks);
    }
  }
}
