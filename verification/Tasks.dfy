/**
 tasks.go and job.go: the ordered task list of a job and its two readings. The database tools' command
 lines appear as tagged commands; a user's script keeps its text.
 */
module Tasks {
  import opened Wrappers
  import opened ResticOptions
  import opened Jobs

  /** Something that holds data: a file, or the part of a database server that one block dumps. */
  datatype Cell =
    | File(path: string)
    | MySQLData(host: string, port: int, database: string, tables: seq<string>)
    | PostgresData(host: string, port: int, database: string, tables: seq<string>)

  datatype Command =
    | NoCommand
    | UserScript(text: string)
    | Dump(source: Cell, path: string)
    | Load(path: string, target: Cell)

  /** A task script, or the backup task itself. */
  datatype ExecutableTask =
    | ScriptTask(onBackup: Command, onRestore: Command, cwd: string, env: map<string, string>, name: string)
    | BackupTask(files: BackupFilesTask)

  /** A database block of any kind. */
  datatype Database = OfMySQL(mysql: JobTaskMySQL) | OfPostgres(postgres: JobTaskPostgres) | OfSqlite(sqlite: JobTaskSqlite)

  function Source(db: Database): Cell {
    match db
    case OfMySQL(t) => MySQLData(t.hostname, t.port, t.database, t.tables)
    case OfPostgres(t) => PostgresData(t.hostname, t.port, t.database, t.tables)
    case OfSqlite(t) => File(t.path)
  }

  function DumpPath(db: Database): string {
    match db
    case OfMySQL(t) => t.dumpToPath
    case OfPostgres(t) => t.dumpToPath
    case OfSqlite(t) => t.dumpToPath
  }

  /** `GetPreTask`: dumps on backup, does nothing on restore. */
  function GetPreTask(db: Database): ExecutableTask {
    match db
    case OfMySQL(t) => ScriptTask(Dump(MySQLData(t.hostname, t.port, t.database, t.tables), t.dumpToPath), NoCommand, ".", map[], t.name)
    case OfPostgres(t) =>
      var env := if t.password != "" then map["PGPASSWORD" := t.password] else map[];
      ScriptTask(Dump(PostgresData(t.hostname, t.port, t.database, t.tables), t.dumpToPath), NoCommand, ".", env, t.name)
    case OfSqlite(t) => ScriptTask(Dump(File(t.path), t.dumpToPath), NoCommand, ".", map[], t.name)
  }

  /** `GetPostTask`: does nothing on backup, loads on restore. */
  function GetPostTask(db: Database): ExecutableTask {
    match db
    case OfMySQL(t) => ScriptTask(NoCommand, Load(t.dumpToPath, MySQLData(t.hostname, t.port, t.database, t.tables)), ".", map[], t.name)
    case OfPostgres(t) =>
      var env := if t.password != "" then map["PGPASSWORD" := t.password] else map[];
      ScriptTask(NoCommand, Load(t.dumpToPath, PostgresData(t.hostname, t.port, t.database, t.tables)), ".", env, t.name)
    case OfSqlite(t) => ScriptTask(NoCommand, Load(t.dumpToPath, File(t.path)), ".", map[], t.name)
  }

  /** A user's script text; the empty text is no command (tasks.go's `run`). */
  function UserCommand(text: string): Command {
    if text == "" then NoCommand else UserScript(text)
  }

  function UserTask(s: JobTaskScript, name: string): ExecutableTask {
    ScriptTask(UserCommand(s.onBackup), UserCommand(s.onRestore), s.cwd, s.env, name)
  }

  // ----- Tasks in the configuration's own terms ----------------------------------------------------

  ghost predicate IsDumpTask(task: ExecutableTask, source: Cell, path: string, env: map<string, string>, name: string) {
    task == ScriptTask(Dump(source, path), NoCommand, ".", env, name)
  }

  ghost predicate IsLoadTask(task: ExecutableTask, path: string, target: Cell, env: map<string, string>, name: string) {
    task == ScriptTask(NoCommand, Load(path, target), ".", env, name)
  }

  /** The environment a password goes out in, if there is one. */
  ghost predicate PasswordEnv(env: map<string, string>, password: string) {
    env == if password == "" then map[] else map["PGPASSWORD" := password]
  }

  /** The dumps of these blocks, in order. */
  ghost predicate MySQLDumps(tasks: seq<ExecutableTask>, ts: seq<JobTaskMySQL>) {
    && |tasks| == |ts|
    && forall i :: 0 <= i < |ts| ==>
         var t := ts[i]; IsDumpTask(tasks[i], MySQLData(t.hostname, t.port, t.database, t.tables), t.dumpToPath, map[], t.name)
  }

  ghost predicate PostgresDumps(tasks: seq<ExecutableTask>, ts: seq<JobTaskPostgres>) {
    && |tasks| == |ts|
    && forall i :: 0 <= i < |ts| ==>
         var t := ts[i];
         && tasks[i].ScriptTask? && PasswordEnv(tasks[i].env, t.password)
         && IsDumpTask(tasks[i], PostgresData(t.hostname, t.port, t.database, t.tables), t.dumpToPath, tasks[i].env, t.name)
  }

  ghost predicate SqliteDumps(tasks: seq<ExecutableTask>, ts: seq<JobTaskSqlite>) {
    && |tasks| == |ts|
    && forall i :: 0 <= i < |ts| ==> IsDumpTask(tasks[i], File(ts[i].path), ts[i].dumpToPath, map[], ts[i].name)
  }

  /** The loads of these blocks, in order. */
  ghost predicate MySQLLoads(tasks: seq<ExecutableTask>, ts: seq<JobTaskMySQL>) {
    && |tasks| == |ts|
    && forall i :: 0 <= i < |ts| ==>
         var t := ts[i]; IsLoadTask(tasks[i], t.dumpToPath, MySQLData(t.hostname, t.port, t.database, t.tables), map[], t.name)
  }

  ghost predicate PostgresLoads(tasks: seq<ExecutableTask>, ts: seq<JobTaskPostgres>) {
    && |tasks| == |ts|
    && forall i :: 0 <= i < |ts| ==>
         var t := ts[i];
         && tasks[i].ScriptTask? && PasswordEnv(tasks[i].env, t.password)
         && IsLoadTask(tasks[i], t.dumpToPath, PostgresData(t.hostname, t.port, t.database, t.tables), tasks[i].env, t.name)
  }

  ghost predicate SqliteLoads(tasks: seq<ExecutableTask>, ts: seq<JobTaskSqlite>) {
    && |tasks| == |ts|
    && forall i :: 0 <= i < |ts| ==> IsLoadTask(tasks[i], ts[i].dumpToPath, File(ts[i].path), map[], ts[i].name)
  }

  ghost predicate IsCommandFor(command: Command, text: string) {
    if text == "" then command.NoCommand? else command == UserScript(text)
  }

  /** These scripts, in order, under the name of their task. */
  ghost predicate Scripts(tasks: seq<ExecutableTask>, scripts: seq<JobTaskScript>, name: string) {
    && |tasks| == |scripts|
    && forall i :: 0 <= i < |scripts| ==>
         var task, s := tasks[i], scripts[i];
         && task.ScriptTask? && IsCommandFor(task.onBackup, s.onBackup) && IsCommandFor(task.onRestore, s.onRestore)
         && task.cwd == s.cwd && task.env == s.env && task.name == name
  }

  /** What one task contributes before the backup: its MySQL and Sqlite dumps and its pre scripts, nothing else. */
  ghost predicate IsTaskPre(tasks: seq<ExecutableTask>, t: JobTask) {
    var n, m := |t.mysql|, |t.mysql| + |t.sqlite|;
    && |tasks| == m + |t.preScripts|
    && MySQLDumps(tasks[..n], t.mysql) && SqliteDumps(tasks[n..m], t.sqlite) && Scripts(tasks[m..], t.preScripts, t.name)
  }

  /** After it: its post scripts and its MySQL and Sqlite loads. */
  ghost predicate IsTaskPost(tasks: seq<ExecutableTask>, t: JobTask) {
    var k, n := |t.postScripts|, |t.postScripts| + |t.mysql|;
    && |tasks| == n + |t.sqlite|
    && Scripts(tasks[..k], t.postScripts, t.name) && MySQLLoads(tasks[k..n], t.mysql) && SqliteLoads(tasks[n..], t.sqlite)
  }

  /** The dumps of a job's own blocks. */
  ghost predicate OwnDumps(tasks: seq<ExecutableTask>, j: Job) {
    var m, p := |j.mysql|, |j.mysql| + |j.postgres|;
    && |tasks| == p + |j.sqlite|
    && MySQLDumps(tasks[..m], j.mysql) && PostgresDumps(tasks[m..p], j.postgres) && SqliteDumps(tasks[p..], j.sqlite)
  }

  ghost predicate OwnLoads(tasks: seq<ExecutableTask>, j: Job) {
    var m, p := |j.mysql|, |j.mysql| + |j.postgres|;
    && |tasks| == p + |j.sqlite|
    && MySQLLoads(tasks[..m], j.mysql) && PostgresLoads(tasks[m..p], j.postgres) && SqliteLoads(tasks[p..], j.sqlite)
  }

  /** The job's own blocks are dumped at the start of the list and loaded at its end. */
  ghost predicate OwnBlocksAround(tasks: seq<ExecutableTask>, j: Job) {
    var n := |j.mysql| + |j.postgres| + |j.sqlite|;
    n <= |tasks| - n && OwnDumps(tasks[..n], j) && OwnLoads(tasks[|tasks| - n..], j)
  }

  // ----- The task list, in one expression ----------------------------------------------------------

  function PreTasks(dbs: seq<Database>): (tasks: seq<ExecutableTask>)
    ensures |tasks| == |dbs|
    ensures forall i :: 0 <= i < |dbs| ==> tasks[i] == GetPreTask(dbs[i])
  {
    seq(|dbs|, i requires 0 <= i < |dbs| => GetPreTask(dbs[i]))
  }

  function PostTasks(dbs: seq<Database>): (tasks: seq<ExecutableTask>)
    ensures |tasks| == |dbs|
    ensures forall i :: 0 <= i < |dbs| ==> tasks[i] == GetPostTask(dbs[i])
  {
    seq(|dbs|, i requires 0 <= i < |dbs| => GetPostTask(dbs[i]))
  }

  function UserTasks(scripts: seq<JobTaskScript>, name: string): (tasks: seq<ExecutableTask>)
    ensures |tasks| == |scripts|
    ensures forall i :: 0 <= i < |scripts| ==> tasks[i] == UserTask(scripts[i], name)
  {
    seq(|scripts|, i requires 0 <= i < |scripts| => UserTask(scripts[i], name))
  }

  function MySQLs(ts: seq<JobTaskMySQL>): (dbs: seq<Database>)
    ensures |dbs| == |ts| && forall i :: 0 <= i < |ts| ==> dbs[i] == OfMySQL(ts[i])
  {
    seq(|ts|, i requires 0 <= i < |ts| => OfMySQL(ts[i]))
  }

  function Postgreses(ts: seq<JobTaskPostgres>): (dbs: seq<Database>)
    ensures |dbs| == |ts| && forall i :: 0 <= i < |ts| ==> dbs[i] == OfPostgres(ts[i])
  {
    seq(|ts|, i requires 0 <= i < |ts| => OfPostgres(ts[i]))
  }

  function Sqlites(ts: seq<JobTaskSqlite>): (dbs: seq<Database>)
    ensures |dbs| == |ts| && forall i :: 0 <= i < |ts| ==> dbs[i] == OfSqlite(ts[i])
  {
    seq(|ts|, i requires 0 <= i < |ts| => OfSqlite(ts[i]))
  }

  /** The job's own database blocks, in the order they are dumped and loaded. */
  function Databases(j: Job): seq<Database> {
    MySQLs(j.mysql) + Postgreses(j.postgres) + Sqlites(j.sqlite)
  }

  /** The database blocks of a task that take part; nested Postgres blocks do not. */
  function TaskDatabases(t: JobTask): seq<Database> {
    MySQLs(t.mysql) + Sqlites(t.sqlite)
  }

  function TaskPre(t: JobTask): seq<ExecutableTask> {
    PreTasks(TaskDatabases(t)) + UserTasks(t.preScripts, t.name)
  }

  function TaskPost(t: JobTask): seq<ExecutableTask> {
    UserTasks(t.postScripts, t.name) + PostTasks(TaskDatabases(t))
  }

  function AllPre(tasks: seq<JobTask>): seq<ExecutableTask> {
    if tasks == [] then [] else AllPre(tasks[..|tasks| - 1]) + TaskPre(tasks[|tasks| - 1])
  }

  function AllPost(tasks: seq<JobTask>): seq<ExecutableTask> {
    if tasks == [] then [] else AllPost(tasks[..|tasks| - 1]) + TaskPost(tasks[|tasks| - 1])
  }

  function TaskList(j: Job): seq<ExecutableTask> {
    PreTasks(Databases(j)) + AllPre(j.tasks) + [BackupTask(j.backup)] + AllPost(j.tasks) + PostTasks(Databases(j))
  }

  lemma PreTasksConcat(a: seq<Database>, b: seq<Database>)
    ensures PreTasks(a + b) == PreTasks(a) + PreTasks(b)
    ensures PostTasks(a + b) == PostTasks(a) + PostTasks(b)
  {
  }

  lemma PreTasksGrow(dbs: seq<Database>, i: nat)
    requires i < |dbs|
    ensures PreTasks(dbs[..i + 1]) == PreTasks(dbs[..i]) + [GetPreTask(dbs[i])]
    ensures PostTasks(dbs[..i + 1]) == PostTasks(dbs[..i]) + [GetPostTask(dbs[i])]
  {
  }

  lemma UserTasksGrow(scripts: seq<JobTaskScript>, name: string, i: nat)
    requires i < |scripts|
    ensures UserTasks(scripts[..i + 1], name) == UserTasks(scripts[..i], name) + [UserTask(scripts[i], name)]
  {
  }

  // ----- The list as the source builds it ----------------------------------------------------------

  /** One `for _, t := range ... { allTasks = append(allTasks, t.GetPreTask()) }`. */
  method AppendPreTasks(tasks: seq<ExecutableTask>, dbs: seq<Database>) returns (r: seq<ExecutableTask>)
    ensures r == tasks + PreTasks(dbs)
  {
    r := tasks;
    for i := 0 to |dbs|
      invariant r == tasks + PreTasks(dbs[..i])
    {
      PreTasksGrow(dbs, i);
      r := r + [GetPreTask(dbs[i])];
    }
    assert dbs[..|dbs|] == dbs;
  }

  method AppendPostTasks(tasks: seq<ExecutableTask>, dbs: seq<Database>) returns (r: seq<ExecutableTask>)
    ensures r == tasks + PostTasks(dbs)
  {
    r := tasks;
    for i := 0 to |dbs|
      invariant r == tasks + PostTasks(dbs[..i])
    {
      PreTasksGrow(dbs, i);
      r := r + [GetPostTask(dbs[i])];
    }
    assert dbs[..|dbs|] == dbs;
  }

  method AppendUserTasks(tasks: seq<ExecutableTask>, scripts: seq<JobTaskScript>, name: string)
    returns (r: seq<ExecutableTask>)
    ensures r == tasks + UserTasks(scripts, name)
  {
    r := tasks;
    for i := 0 to |scripts|
      invariant r == tasks + UserTasks(scripts[..i], name)
    {
      UserTasksGrow(scripts, name, i);
      r := r + [UserTask(scripts[i], name)];
    }
    assert scripts[..|scripts|] == scripts;
  }

  lemma ThreeParts<T>(a: seq<T>, b: seq<T>, c: seq<T>)
    ensures var all, n, m := a + b + c, |a|, |a| + |b|; all[..n] == a && all[n..m] == b && all[m..] == c
  {
  }

  lemma TaskPreIs(t: JobTask)
    ensures IsTaskPre(TaskPre(t), t)
  {
    var a, b, c := PreTasks(MySQLs(t.mysql)), PreTasks(Sqlites(t.sqlite)), UserTasks(t.preScripts, t.name);
    PreTasksConcat(MySQLs(t.mysql), Sqlites(t.sqlite));
    assert TaskPre(t) == a + b + c;
    ThreeParts(a, b, c);
  }

  lemma TaskPostIs(t: JobTask)
    ensures IsTaskPost(TaskPost(t), t)
  {
    var a, b, c := UserTasks(t.postScripts, t.name), PostTasks(MySQLs(t.mysql)), PostTasks(Sqlites(t.sqlite));
    PreTasksConcat(MySQLs(t.mysql), Sqlites(t.sqlite));
    Associative(a, b, c);
    assert TaskPost(t) == a + b + c;
    ThreeParts(a, b, c);
  }

  /** `JobTask.GetPreTasks`: databases, then scripts. */
  method GetPreTasks(t: JobTask) returns (allTasks: seq<ExecutableTask>)
    ensures allTasks == TaskPre(t) && IsTaskPre(allTasks, t)
  {
    PreTasksConcat(MySQLs(t.mysql), Sqlites(t.sqlite));
    allTasks := AppendPreTasks([], MySQLs(t.mysql));
    allTasks := AppendPreTasks(allTasks, Sqlites(t.sqlite));
    allTasks := AppendUserTasks(allTasks, t.preScripts, t.name);
    assert allTasks == TaskPre(t);
    TaskPreIs(t);
  }

  /** `JobTask.GetPostTasks`: scripts, then databases. */
  method GetPostTasks(t: JobTask) returns (allTasks: seq<ExecutableTask>)
    ensures allTasks == TaskPost(t) && IsTaskPost(allTasks, t)
  {
    PreTasksConcat(MySQLs(t.mysql), Sqlites(t.sqlite));
    allTasks := AppendUserTasks([], t.postScripts, t.name);
    allTasks := AppendPostTasks(allTasks, MySQLs(t.mysql));
    allTasks := AppendPostTasks(allTasks, Sqlites(t.sqlite));
    assert allTasks == TaskPost(t);
    TaskPostIs(t);
  }

  /** The loop of `AllTasks` over the job's tasks before the backup. */
  method AppendAllPre(allTasks: seq<ExecutableTask>, tasks: seq<JobTask>) returns (r: seq<ExecutableTask>)
    ensures r == allTasks + AllPre(tasks)
  {
    r := allTasks;
    for i := 0 to |tasks|
      invariant r == allTasks + AllPre(tasks[..i])
    {
      assert tasks[..i + 1][..i] == tasks[..i];
      var pre := GetPreTasks(tasks[i]);
      Associative(allTasks, AllPre(tasks[..i]), pre);
      r := r + pre;
    }
    assert tasks[..|tasks|] == tasks;
  }

  method AppendAllPost(allTasks: seq<ExecutableTask>, tasks: seq<JobTask>) returns (r: seq<ExecutableTask>)
    ensures r == allTasks + AllPost(tasks)
  {
    r := allTasks;
    for i := 0 to |tasks|
      invariant r == allTasks + AllPost(tasks[..i])
    {
      assert tasks[..i + 1][..i] == tasks[..i];
      var post := GetPostTasks(tasks[i]);
      Associative(allTasks, AllPost(tasks[..i]), post);
      r := r + post;
    }
    assert tasks[..|tasks|] == tasks;
  }

  lemma DatabaseTasks(j: Job)
    ensures PreTasks(Databases(j)) == PreTasks(MySQLs(j.mysql)) + PreTasks(Postgreses(j.postgres)) + PreTasks(Sqlites(j.sqlite))
    ensures PostTasks(Databases(j)) == PostTasks(MySQLs(j.mysql)) + PostTasks(Postgreses(j.postgres)) + PostTasks(Sqlites(j.sqlite))
  {
    PreTasksConcat(MySQLs(j.mysql), Postgreses(j.postgres));
    PreTasksConcat(MySQLs(j.mysql) + Postgreses(j.postgres), Sqlites(j.sqlite));
  }

  method AppendPreDatabases(j: Job) returns (r: seq<ExecutableTask>)
    ensures r == PreTasks(Databases(j))
  {
    DatabaseTasks(j);
    r := AppendPreTasks([], MySQLs(j.mysql));
    r := AppendPreTasks(r, Postgreses(j.postgres));
    r := AppendPreTasks(r, Sqlites(j.sqlite));
  }

  method AppendPostDatabases(allTasks: seq<ExecutableTask>, j: Job) returns (r: seq<ExecutableTask>)
    ensures r == allTasks + PostTasks(Databases(j))
  {
    var mysql, postgres, sqlite := MySQLs(j.mysql), Postgreses(j.postgres), Sqlites(j.sqlite);
    DatabaseTasks(j);
    r := AppendPostTasks(allTasks, mysql);
    r := AppendPostTasks(r, postgres);
    r := AppendPostTasks(r, sqlite);
    Associative(allTasks, PostTasks(mysql), PostTasks(postgres));
    Associative(allTasks, PostTasks(mysql) + PostTasks(postgres), PostTasks(sqlite));
  }

  lemma OwnTasksAre(j: Job)
    ensures OwnDumps(PreTasks(Databases(j)), j) && OwnLoads(PostTasks(Databases(j)), j)
  {
    var mysql, postgres, sqlite := MySQLs(j.mysql), Postgreses(j.postgres), Sqlites(j.sqlite);
    DatabaseTasks(j);
    ThreeParts(PreTasks(mysql), PreTasks(postgres), PreTasks(sqlite));
    ThreeParts(PostTasks(mysql), PostTasks(postgres), PostTasks(sqlite));
  }

  lemma FirstAndLast<T>(first: seq<T>, a: seq<T>, b: seq<T>, c: seq<T>, last: seq<T>)
    ensures var all := first + a + b + c + last; all[..|first|] == first && all[|all| - |last|..] == last
  {
  }

  lemma OwnBlocksListed(j: Job)
    ensures OwnBlocksAround(TaskList(j), j)
  {
    var own := Databases(j);
    OwnTasksAre(j);
    FirstAndLast(PreTasks(own), AllPre(j.tasks), [BackupTask(j.backup)], AllPost(j.tasks), PostTasks(own));
    AroundBy(TaskList(j), PreTasks(own), PostTasks(own), j);
  }

  lemma AroundBy(list: seq<ExecutableTask>, first: seq<ExecutableTask>, last: seq<ExecutableTask>, j: Job)
    requires OwnDumps(first, j) && OwnLoads(last, j) && |first| + |last| <= |list|
    requires list[..|first|] == first && list[|list| - |last|..] == last
    ensures OwnBlocksAround(list, j)
  {
  }

  /** `Job.AllTasks`. */
  method AllTasks(j: Job) returns (allTasks: seq<ExecutableTask>)
    ensures allTasks == TaskList(j) && OwnBlocksAround(allTasks, j)
  {
    allTasks := AppendPreDatabases(j);
    allTasks := AppendAllPre(allTasks, j.tasks);
    allTasks := allTasks + [BackupTask(j.backup)];
    allTasks := AppendAllPost(allTasks, j.tasks);
    allTasks := AppendPostDatabases(allTasks, j);
    OwnBlocksListed(j);
  }

  /** Where the contribution of task `i` stands among those of all tasks. */
  function PreAt(tasks: seq<JobTask>, i: nat): nat
    requires i <= |tasks|
  {
    |AllPre(tasks[..i])|
  }

  function PostAt(tasks: seq<JobTask>, i: nat): nat
    requires i <= |tasks|
  {
    |AllPost(tasks[..i])|
  }

  lemma {:induction false} PreStandsAt(tasks: seq<JobTask>, i: nat)
    requires i < |tasks|
    ensures PreAt(tasks, i) + |TaskPre(tasks[i])| == PreAt(tasks, i + 1) <= |AllPre(tasks)|
    ensures AllPre(tasks)[PreAt(tasks, i)..PreAt(tasks, i + 1)] == TaskPre(tasks[i])
    decreases |tasks|
  {
    var n := |tasks| - 1;
    assert tasks[..i + 1][..i] == tasks[..i];
    if i == n {
      assert tasks[..i + 1] == tasks;
    } else {
      assert tasks[..n][..i] == tasks[..i] && tasks[..n][..i + 1] == tasks[..i + 1];
      PreStandsAt(tasks[..n], i);
      SliceOfFirst(AllPre(tasks[..n]), TaskPre(tasks[n]), PreAt(tasks, i), PreAt(tasks, i + 1));
    }
  }

  lemma {:induction false} PostStandsAt(tasks: seq<JobTask>, i: nat)
    requires i < |tasks|
    ensures PostAt(tasks, i) + |TaskPost(tasks[i])| == PostAt(tasks, i + 1) <= |AllPost(tasks)|
    ensures AllPost(tasks)[PostAt(tasks, i)..PostAt(tasks, i + 1)] == TaskPost(tasks[i])
    decreases |tasks|
  {
    var n := |tasks| - 1;
    assert tasks[..i + 1][..i] == tasks[..i];
    if i == n {
      assert tasks[..i + 1] == tasks;
    } else {
      assert tasks[..n][..i] == tasks[..i] && tasks[..n][..i + 1] == tasks[..i + 1];
      PostStandsAt(tasks[..n], i);
      SliceOfFirst(AllPost(tasks[..n]), TaskPost(tasks[n]), PostAt(tasks, i), PostAt(tasks, i + 1));
    }
  }

  lemma SliceOfFirst<T>(a: seq<T>, b: seq<T>, lo: nat, hi: nat)
    requires lo <= hi <= |a|
    ensures (a + b)[lo..hi] == a[lo..hi]
  {
  }

  lemma {:induction false} PreGrows(tasks: seq<JobTask>, i: nat, k: nat)
    requires i <= k <= |tasks|
    ensures PreAt(tasks, i) <= PreAt(tasks, k)
    decreases k
  {
    if i < k {
      PreGrows(tasks, i, k - 1);
      PreStandsAt(tasks, k - 1);
    }
  }

  lemma {:induction false} PostGrows(tasks: seq<JobTask>, i: nat, k: nat)
    requires i <= k <= |tasks|
    ensures PostAt(tasks, i) <= PostAt(tasks, k)
    decreases k
  {
    if i < k {
      PostGrows(tasks, i, k - 1);
      PostStandsAt(tasks, k - 1);
    }
  }

  /**
   Tasks keep their configured order: what task `i` contributes, before the backup and after it, stands
   before what a later task `k` contributes there.
   */
  lemma TasksInOrder(tasks: seq<JobTask>, i: nat, k: nat)
    requires i < k < |tasks|
    ensures PreAt(tasks, i + 1) <= PreAt(tasks, k) && PostAt(tasks, i + 1) <= PostAt(tasks, k)
    ensures PreAt(tasks, i) <= PreAt(tasks, i + 1) <= |AllPre(tasks)| && PostAt(tasks, i) <= PostAt(tasks, i + 1) <= |AllPost(tasks)|
    ensures IsTaskPre(AllPre(tasks)[PreAt(tasks, i)..PreAt(tasks, i + 1)], tasks[i])
    ensures IsTaskPost(AllPost(tasks)[PostAt(tasks, i)..PostAt(tasks, i + 1)], tasks[i])
  {
    PreGrows(tasks, i + 1, k);
    PostGrows(tasks, i + 1, k);
    PreStandsAt(tasks, i);
    PostStandsAt(tasks, i);
    TaskPreIs(tasks[i]);
    TaskPostIs(tasks[i]);
  }

  // ----- The two readings --------------------------------------------------------------------------

  /** What running a task can ask the outside world to do. */
  datatype Action =
    | Shell(command: Command)
    | ResticSnapshots
    | ResticInit
    | ResticBackup(paths: seq<string>, backupOpts: BackupOpts)
    | ResticRestore(snapshot: string, restoreOpts: RestoreOpts)
    | ResticForget(forgetOpts: ForgetOpts)

  const NO_BACKUP_OPTS: BackupOpts := BackupOpts([], [], [], "")
  const NO_RESTORE_OPTS: RestoreOpts := RestoreOpts([], [], [], [], "", "", false)

  /** What is backed up: the configured paths and the dumps of the job's own databases. */
  function BackupPaths(j: Job): seq<string> { j.backup.paths + DumpPaths(Databases(j)) }

  /** The configured paths and then the dump file of every block of the job's own. */
  ghost predicate AllPaths(paths: seq<string>, j: Job) {
    var n, m, p := |j.backup.paths|, |j.backup.paths| + |j.mysql|, |j.backup.paths| + |j.mysql| + |j.postgres|;
    && |paths| == p + |j.sqlite| && paths[..n] == j.backup.paths
    && (forall i :: 0 <= i < |j.mysql| ==> paths[n..m][i] == j.mysql[i].dumpToPath)
    && (forall i :: 0 <= i < |j.postgres| ==> paths[m..p][i] == j.postgres[i].dumpToPath)
    && (forall i :: 0 <= i < |j.sqlite| ==> paths[p..][i] == j.sqlite[i].dumpToPath)
  }

  lemma BackupPathsAre(j: Job)
    ensures AllPaths(BackupPaths(j), j)
  {
    var a, b, c := DumpPaths(MySQLs(j.mysql)), DumpPaths(Postgreses(j.postgres)), DumpPaths(Sqlites(j.sqlite));
    DumpPathsByKind(j);
    assert BackupPaths(j) == j.backup.paths + (a + b + c);
    PathsInParts(BackupPaths(j), a, b, c, j);
  }

  lemma PathsInParts(paths: seq<string>, a: seq<string>, b: seq<string>, c: seq<string>, j: Job)
    requires paths == j.backup.paths + (a + b + c)
    requires |a| == |j.mysql| && forall i :: 0 <= i < |a| ==> a[i] == j.mysql[i].dumpToPath
    requires |b| == |j.postgres| && forall i :: 0 <= i < |b| ==> b[i] == j.postgres[i].dumpToPath
    requires |c| == |j.sqlite| && forall i :: 0 <= i < |c| ==> c[i] == j.sqlite[i].dumpToPath
    ensures AllPaths(paths, j)
  {
    FourParts(j.backup.paths, a, b, c);
  }

  lemma FourParts<T>(a: seq<T>, b: seq<T>, c: seq<T>, d: seq<T>)
    ensures var all, n, m, p := a + (b + c + d), |a|, |a| + |b|, |a| + |b| + |c|;
            all[..n] == a && all[n..m] == b && all[m..p] == c && all[p..] == d
  {
  }

  lemma DumpPathsByKind(j: Job)
    ensures DumpPaths(Databases(j)) == DumpPaths(MySQLs(j.mysql)) + DumpPaths(Postgreses(j.postgres)) + DumpPaths(Sqlites(j.sqlite))
  {
  }

  function DumpPaths(dbs: seq<Database>): (paths: seq<string>)
    ensures |paths| == |dbs| && forall i :: 0 <= i < |dbs| ==> paths[i] == DumpPath(dbs[i])
  {
    seq(|dbs|, i requires 0 <= i < |dbs| => DumpPath(dbs[i]))
  }

  /** `RunBackup` of one task: at most one action. */
  function OnBackup(task: ExecutableTask, paths: seq<string>): seq<Action> {
    match task
    case ScriptTask(command, _, _, _, _) => if command.NoCommand? then [] else [Shell(command)]
    case BackupTask(t) => [ResticBackup(paths, if t.backupOpts.Some? then t.backupOpts.value else NO_BACKUP_OPTS)]
  }

  /** `RunRestore` of one task; an empty snapshot name means the latest. */
  function OnRestore(task: ExecutableTask, snapshot: string): seq<Action> {
    match task
    case ScriptTask(_, command, _, _, _) => if command.NoCommand? then [] else [Shell(command)]
    case BackupTask(t) =>
      [ResticRestore(if snapshot == "" then "latest" else snapshot,
                     if t.restoreOpts.Some? then t.restoreOpts.value else NO_RESTORE_OPTS)]
  }

  function BackupActions(tasks: seq<ExecutableTask>, paths: seq<string>): seq<Action> {
    if tasks == [] then []
    else BackupActions(tasks[..|tasks| - 1], paths) + OnBackup(tasks[|tasks| - 1], paths)
  }

  function RestoreActions(tasks: seq<ExecutableTask>, snapshot: string): seq<Action> {
    if tasks == [] then []
    else RestoreActions(tasks[..|tasks| - 1], snapshot) + OnRestore(tasks[|tasks| - 1], snapshot)
  }

  lemma ActionsAppend(tasks: seq<ExecutableTask>, task: ExecutableTask, paths: seq<string>, snapshot: string)
    ensures BackupActions(tasks + [task], paths) == BackupActions(tasks, paths) + OnBackup(task, paths)
    ensures RestoreActions(tasks + [task], snapshot) == RestoreActions(tasks, snapshot) + OnRestore(task, snapshot)
  {
    assert (tasks + [task])[..|tasks|] == tasks;
  }

  lemma {:induction false} BackupActionsConcat(a: seq<ExecutableTask>, b: seq<ExecutableTask>, paths: seq<string>)
    ensures BackupActions(a + b, paths) == BackupActions(a, paths) + BackupActions(b, paths)
    decreases |b|
  {
    if b == [] {
      assert a + b == a;
    } else {
      var front, last := b[..|b| - 1], b[|b| - 1];
      BackupActionsConcat(a, front, paths);
      Associative(a, front, [last]);
      assert front + [last] == b;
      ActionsAppend(a + front, last, paths, "");
      Associative(BackupActions(a, paths), BackupActions(front, paths), OnBackup(last, paths));
    }
  }

  lemma {:induction false} RestoreActionsConcat(a: seq<ExecutableTask>, b: seq<ExecutableTask>, snapshot: string)
    ensures RestoreActions(a + b, snapshot) == RestoreActions(a, snapshot) + RestoreActions(b, snapshot)
    decreases |b|
  {
    if b == [] {
      assert a + b == a;
    } else {
      var front, last := b[..|b| - 1], b[|b| - 1];
      RestoreActionsConcat(a, front, snapshot);
      Associative(a, front, [last]);
      assert front + [last] == b;
      ActionsAppend(a + front, last, [], snapshot);
      Associative(RestoreActions(a, snapshot), RestoreActions(front, snapshot), OnRestore(last, snapshot));
    }
  }

  function DumpOf(db: Database): Action { Shell(Dump(Source(db), DumpPath(db))) }

  function LoadOf(db: Database): Action { Shell(Load(DumpPath(db), Source(db))) }

  function DumpActions(dbs: seq<Database>): (actions: seq<Action>)
    ensures |actions| == |dbs| && forall i :: 0 <= i < |dbs| ==> actions[i] == DumpOf(dbs[i])
  {
    seq(|dbs|, i requires 0 <= i < |dbs| => DumpOf(dbs[i]))
  }

  function LoadActions(dbs: seq<Database>): (actions: seq<Action>)
    ensures |actions| == |dbs| && forall i :: 0 <= i < |dbs| ==> actions[i] == LoadOf(dbs[i])
  {
    seq(|dbs|, i requires 0 <= i < |dbs| => LoadOf(dbs[i]))
  }

  /** One dump task on backup and on restore. */
  lemma DumpTaskActs(db: Database, paths: seq<string>, snapshot: string)
    ensures OnBackup(GetPreTask(db), paths) == [DumpOf(db)] && OnRestore(GetPreTask(db), snapshot) == []
    ensures match db
            case OfMySQL(t) => DumpOf(db) == Shell(Dump(MySQLData(t.hostname, t.port, t.database, t.tables), t.dumpToPath))
            case OfPostgres(t) => DumpOf(db) == Shell(Dump(PostgresData(t.hostname, t.port, t.database, t.tables), t.dumpToPath))
            case OfSqlite(t) => DumpOf(db) == Shell(Dump(File(t.path), t.dumpToPath))
  {
  }

  /** One load task on backup and on restore. */
  lemma LoadTaskActs(db: Database, paths: seq<string>, snapshot: string)
    ensures OnBackup(GetPostTask(db), paths) == [] && OnRestore(GetPostTask(db), snapshot) == [LoadOf(db)]
    ensures match db
            case OfMySQL(t) => LoadOf(db) == Shell(Load(t.dumpToPath, MySQLData(t.hostname, t.port, t.database, t.tables)))
            case OfPostgres(t) => LoadOf(db) == Shell(Load(t.dumpToPath, PostgresData(t.hostname, t.port, t.database, t.tables)))
            case OfSqlite(t) => LoadOf(db) == Shell(Load(t.dumpToPath, File(t.path)))
  {
  }

  /** Tasks that each do one thing on backup. */
  lemma {:induction false} EachOnBackup(tasks: seq<ExecutableTask>, paths: seq<string>, actions: seq<Action>)
    requires |tasks| == |actions| && forall i :: 0 <= i < |tasks| ==> OnBackup(tasks[i], paths) == [actions[i]]
    ensures BackupActions(tasks, paths) == actions
    decreases |tasks|
  {
    if tasks != [] {
      var n := |tasks| - 1;
      EachOnBackup(tasks[..n], paths, actions[..n]);
      assert actions == actions[..n] + [actions[n]];
    }
  }

  lemma {:induction false} EachOnRestore(tasks: seq<ExecutableTask>, snapshot: string, actions: seq<Action>)
    requires |tasks| == |actions| && forall i :: 0 <= i < |tasks| ==> OnRestore(tasks[i], snapshot) == [actions[i]]
    ensures RestoreActions(tasks, snapshot) == actions
    decreases |tasks|
  {
    if tasks != [] {
      var n := |tasks| - 1;
      EachOnRestore(tasks[..n], snapshot, actions[..n]);
      assert actions == actions[..n] + [actions[n]];
    }
  }

  /** Tasks that do nothing on backup, and on restore. */
  lemma {:induction false} NoneOnBackup(tasks: seq<ExecutableTask>, paths: seq<string>)
    requires forall i :: 0 <= i < |tasks| ==> OnBackup(tasks[i], paths) == []
    ensures BackupActions(tasks, paths) == []
    decreases |tasks|
  {
    if tasks != [] {
      NoneOnBackup(tasks[..|tasks| - 1], paths);
    }
  }

  lemma {:induction false} NoneOnRestore(tasks: seq<ExecutableTask>, snapshot: string)
    requires forall i :: 0 <= i < |tasks| ==> OnRestore(tasks[i], snapshot) == []
    ensures RestoreActions(tasks, snapshot) == []
    decreases |tasks|
  {
    if tasks != [] {
      NoneOnRestore(tasks[..|tasks| - 1], snapshot);
    }
  }

  /** Dump tasks act on backup only. */
  lemma DumpTaskActions(dbs: seq<Database>, paths: seq<string>, snapshot: string)
    ensures BackupActions(PreTasks(dbs), paths) == DumpActions(dbs)
    ensures RestoreActions(PreTasks(dbs), snapshot) == []
  {
    var tasks := PreTasks(dbs);
    forall i | 0 <= i < |dbs|
      ensures OnBackup(tasks[i], paths) == [DumpActions(dbs)[i]] && OnRestore(tasks[i], snapshot) == []
    {
      DumpTaskActs(dbs[i], paths, snapshot);
    }
    EachOnBackup(tasks, paths, DumpActions(dbs));
    NoneOnRestore(tasks, snapshot);
  }

  /** Load tasks act on restore only. */
  lemma LoadTaskActions(dbs: seq<Database>, paths: seq<string>, snapshot: string)
    ensures BackupActions(PostTasks(dbs), paths) == []
    ensures RestoreActions(PostTasks(dbs), snapshot) == LoadActions(dbs)
  {
    var tasks := PostTasks(dbs);
    forall i | 0 <= i < |dbs|
      ensures OnBackup(tasks[i], paths) == [] && OnRestore(tasks[i], snapshot) == [LoadActions(dbs)[i]]
    {
      LoadTaskActs(dbs[i], paths, snapshot);
    }
    NoneOnBackup(tasks, paths);
    EachOnRestore(tasks, snapshot, LoadActions(dbs));
  }

  /** What the tasks of `RunBackup` do, in order: every dump, then one backup, then only user scripts. */
  function BackupPlan(j: Job): seq<Action> {
    BackupHead(j) + [TheBackup(j)] + BackupTail(j)
  }

  function BackupHead(j: Job): seq<Action> { DumpActions(Databases(j)) + BackupActions(AllPre(j.tasks), BackupPaths(j)) }

  function TheBackup(j: Job): Action {
    ResticBackup(BackupPaths(j), if j.backup.backupOpts.Some? then j.backup.backupOpts.value else NO_BACKUP_OPTS)
  }

  function BackupTail(j: Job): seq<Action> { BackupActions(AllPost(j.tasks), BackupPaths(j)) }

  /** What the tasks of `RunRestore` do: only user scripts, then one restore, then every load. */
  function RestorePlan(j: Job, snapshot: string): seq<Action> {
    RestoreHead(j, snapshot) + [TheRestore(j, snapshot)] + RestoreTail(j, snapshot)
  }

  function RestoreHead(j: Job, snapshot: string): seq<Action> { RestoreActions(AllPre(j.tasks), snapshot) }

  function TheRestore(j: Job, snapshot: string): Action {
    ResticRestore(if snapshot == "" then "latest" else snapshot,
                  if j.backup.restoreOpts.Some? then j.backup.restoreOpts.value else NO_RESTORE_OPTS)
  }

  function RestoreTail(j: Job, snapshot: string): seq<Action> {
    RestoreActions(AllPost(j.tasks), snapshot) + LoadActions(Databases(j))
  }

  lemma BackupActionsOfFive(a: seq<ExecutableTask>, b: seq<ExecutableTask>, c: ExecutableTask, d: seq<ExecutableTask>,
                            e: seq<ExecutableTask>, paths: seq<string>)
    ensures BackupActions(a + b + [c] + d + e, paths) ==
            BackupActions(a, paths) + BackupActions(b, paths) + OnBackup(c, paths) + BackupActions(d, paths) + BackupActions(e, paths)
  {
    BackupActionsConcat(a, b, paths);
    ActionsAppend(a + b, c, paths, "");
    BackupActionsConcat(a + b + [c], d, paths);
    BackupActionsConcat(a + b + [c] + d, e, paths);
  }

  lemma RestoreActionsOfFive(a: seq<ExecutableTask>, b: seq<ExecutableTask>, c: ExecutableTask, d: seq<ExecutableTask>,
                             e: seq<ExecutableTask>, snapshot: string)
    ensures RestoreActions(a + b + [c] + d + e, snapshot) ==
            RestoreActions(a, snapshot) + RestoreActions(b, snapshot) + OnRestore(c, snapshot)
            + RestoreActions(d, snapshot) + RestoreActions(e, snapshot)
  {
    RestoreActionsConcat(a, b, snapshot);
    ActionsAppend(a + b, c, [], snapshot);
    RestoreActionsConcat(a + b + [c], d, snapshot);
    RestoreActionsConcat(a + b + [c] + d, e, snapshot);
  }

  /** One task list, read for a backup. */
  lemma BackupReading(j: Job)
    ensures BackupActions(TaskList(j), BackupPaths(j)) == BackupPlan(j)
  {
    var dbs, paths := Databases(j), BackupPaths(j);
    BackupActionsOfFive(PreTasks(dbs), AllPre(j.tasks), BackupTask(j.backup), AllPost(j.tasks), PostTasks(dbs), paths);
    DumpTaskActions(dbs, paths, "");
    LoadTaskActions(dbs, paths, "");
    NothingLast(DumpActions(dbs), BackupActions(AllPre(j.tasks), paths), TheBackup(j), BackupTail(j));
  }

  lemma NothingLast(a: seq<Action>, b: seq<Action>, c: Action, d: seq<Action>)
    ensures a + b + [c] + d + [] == (a + b) + [c] + d
  {
  }

  /** The same list, read for a restore. */
  lemma RestoreReading(j: Job, snapshot: string)
    ensures RestoreActions(TaskList(j), snapshot) == RestorePlan(j, snapshot)
  {
    var dbs := Databases(j);
    var head, middle := RestoreHead(j, snapshot), RestoreActions(AllPost(j.tasks), snapshot);
    RestoreActionsOfFive(PreTasks(dbs), AllPre(j.tasks), BackupTask(j.backup), AllPost(j.tasks), PostTasks(dbs), snapshot);
    DumpTaskActions(dbs, [], snapshot);
    LoadTaskActions(dbs, [], snapshot);
    assert [] + head == head;
    Associative(head + [TheRestore(j, snapshot)], middle, LoadActions(dbs));
  }

  // ----- What the readings contain -----------------------------------------------------------------

  /** All database blocks nested in tasks that take part. */
  function NestedDatabases(tasks: seq<JobTask>): seq<Database> {
    if tasks == [] then [] else NestedDatabases(tasks[..|tasks| - 1]) + TaskDatabases(tasks[|tasks| - 1])
  }

  predicate IsScript(a: Action) { a.Shell? && a.command.UserScript? }

  predicate IsDumpOf(a: Action, dbs: seq<Database>) {
    exists db :: db in dbs && a == DumpOf(db)
  }

  predicate IsLoadOf(a: Action, dbs: seq<Database>) {
    exists db :: db in dbs && a == LoadOf(db)
  }

  function BackupTexts(scripts: seq<JobTaskScript>): seq<string> {
    seq(|scripts|, i requires 0 <= i < |scripts| => scripts[i].onBackup)
  }

  function RestoreTexts(scripts: seq<JobTaskScript>): seq<string> {
    seq(|scripts|, i requires 0 <= i < |scripts| => scripts[i].onRestore)
  }

  function ScriptRun(text: string): seq<Action> { if text == "" then [] else [Shell(UserScript(text))] }

  /** The texts that are not empty, each run as a script. */
  function ScriptsRun(texts: seq<string>): seq<Action> {
    if texts == [] then [] else ScriptsRun(texts[..|texts| - 1]) + ScriptRun(texts[|texts| - 1])
  }

  lemma {:induction false} ScriptsRunOnly(texts: seq<string>)
    ensures forall a :: a in ScriptsRun(texts) ==> IsScript(a)
    decreases |texts|
  {
    if texts != [] {
      ScriptsRunOnly(texts[..|texts| - 1]);
    }
  }

  lemma {:induction false} ScriptsOnBackup(tasks: seq<ExecutableTask>, paths: seq<string>, texts: seq<string>)
    requires |tasks| == |texts| && forall i :: 0 <= i < |tasks| ==> OnBackup(tasks[i], paths) == ScriptRun(texts[i])
    ensures BackupActions(tasks, paths) == ScriptsRun(texts)
    decreases |tasks|
  {
    if tasks != [] {
      ScriptsOnBackup(tasks[..|tasks| - 1], paths, texts[..|tasks| - 1]);
    }
  }

  lemma {:induction false} ScriptsOnRestore(tasks: seq<ExecutableTask>, snapshot: string, texts: seq<string>)
    requires |tasks| == |texts| && forall i :: 0 <= i < |tasks| ==> OnRestore(tasks[i], snapshot) == ScriptRun(texts[i])
    ensures RestoreActions(tasks, snapshot) == ScriptsRun(texts)
    decreases |tasks|
  {
    if tasks != [] {
      ScriptsOnRestore(tasks[..|tasks| - 1], snapshot, texts[..|tasks| - 1]);
    }
  }

  /** A user's scripts run in order: on backup, their backup texts that are not empty. */
  lemma UserOnBackup(scripts: seq<JobTaskScript>, name: string, paths: seq<string>)
    ensures BackupActions(UserTasks(scripts, name), paths) == ScriptsRun(BackupTexts(scripts))
  {
    ScriptsOnBackup(UserTasks(scripts, name), paths, BackupTexts(scripts));
  }

  /** On restore, their restore texts. */
  lemma UserOnRestore(scripts: seq<JobTaskScript>, name: string, snapshot: string)
    ensures RestoreActions(UserTasks(scripts, name), snapshot) == ScriptsRun(RestoreTexts(scripts))
  {
    ScriptsOnRestore(UserTasks(scripts, name), snapshot, RestoreTexts(scripts));
  }

  /** One task on backup: its dumps and pre scripts before it, its post scripts after it. */
  lemma TaskOnBackup(t: JobTask, paths: seq<string>)
    ensures BackupActions(TaskPre(t), paths) == DumpActions(TaskDatabases(t)) + ScriptsRun(BackupTexts(t.preScripts))
    ensures BackupActions(TaskPost(t), paths) == ScriptsRun(BackupTexts(t.postScripts))
  {
    var dbs := TaskDatabases(t);
    BackupActionsConcat(PreTasks(dbs), UserTasks(t.preScripts, t.name), paths);
    BackupActionsConcat(UserTasks(t.postScripts, t.name), PostTasks(dbs), paths);
    DumpTaskActions(dbs, paths, "");
    LoadTaskActions(dbs, paths, "");
    UserOnBackup(t.preScripts, t.name, paths);
    UserOnBackup(t.postScripts, t.name, paths);
    NothingAfter(ScriptsRun(BackupTexts(t.postScripts)));
  }

  /** One task on restore: its pre scripts before it, its post scripts and loads after it. */
  lemma TaskOnRestore(t: JobTask, snapshot: string)
    ensures RestoreActions(TaskPre(t), snapshot) == ScriptsRun(RestoreTexts(t.preScripts))
    ensures RestoreActions(TaskPost(t), snapshot) == ScriptsRun(RestoreTexts(t.postScripts)) + LoadActions(TaskDatabases(t))
  {
    var dbs := TaskDatabases(t);
    RestoreActionsConcat(PreTasks(dbs), UserTasks(t.preScripts, t.name), snapshot);
    RestoreActionsConcat(UserTasks(t.postScripts, t.name), PostTasks(dbs), snapshot);
    DumpTaskActions(dbs, [], snapshot);
    LoadTaskActions(dbs, [], snapshot);
    UserOnRestore(t.preScripts, t.name, snapshot);
    UserOnRestore(t.postScripts, t.name, snapshot);
    NothingAfter(ScriptsRun(RestoreTexts(t.preScripts)));
  }

  lemma NothingAfter(actions: seq<Action>)
    ensures actions + [] == actions && [] + actions == actions
  {
  }

  /** Nested blocks on backup: dumps and scripts before it, only scripts after it. */
  lemma {:induction false} NestedOnBackup(tasks: seq<JobTask>, paths: seq<string>)
    ensures forall a :: a in BackupActions(AllPre(tasks), paths) ==> IsScript(a) || IsDumpOf(a, NestedDatabases(tasks))
    ensures forall a :: a in BackupActions(AllPost(tasks), paths) ==> IsScript(a)
    decreases |tasks|
  {
    if tasks != [] {
      var front, t := tasks[..|tasks| - 1], tasks[|tasks| - 1];
      NestedOnBackup(front, paths);
      BackupActionsConcat(AllPre(front), TaskPre(t), paths);
      BackupActionsConcat(AllPost(front), TaskPost(t), paths);
      TaskOnBackup(t, paths);
      ScriptsRunOnly(BackupTexts(t.preScripts));
      ScriptsRunOnly(BackupTexts(t.postScripts));
      MembersAreDumps(TaskDatabases(t));
      MoreBlocks(NestedDatabases(front), TaskDatabases(t));
    }
  }

  /** Nested blocks on restore: only scripts before it, scripts and loads after it. */
  lemma {:induction false} NestedOnRestore(tasks: seq<JobTask>, snapshot: string)
    ensures forall a :: a in RestoreActions(AllPre(tasks), snapshot) ==> IsScript(a)
    ensures forall a :: a in RestoreActions(AllPost(tasks), snapshot) ==> IsScript(a) || IsLoadOf(a, NestedDatabases(tasks))
    decreases |tasks|
  {
    if tasks != [] {
      var front, t := tasks[..|tasks| - 1], tasks[|tasks| - 1];
      NestedOnRestore(front, snapshot);
      RestoreActionsConcat(AllPre(front), TaskPre(t), snapshot);
      RestoreActionsConcat(AllPost(front), TaskPost(t), snapshot);
      TaskOnRestore(t, snapshot);
      ScriptsRunOnly(RestoreTexts(t.preScripts));
      ScriptsRunOnly(RestoreTexts(t.postScripts));
      MembersAreDumps(TaskDatabases(t));
      MoreBlocks(NestedDatabases(front), TaskDatabases(t));
    }
  }

  lemma MoreBlocks(a: seq<Database>, b: seq<Database>)
    ensures forall c :: IsDumpOf(c, a) || IsDumpOf(c, b) ==> IsDumpOf(c, a + b)
    ensures forall c :: IsLoadOf(c, a) || IsLoadOf(c, b) ==> IsLoadOf(c, a + b)
  {
    assert forall db :: db in a || db in b ==> db in a + b;
  }

  lemma MembersAreDumps(dbs: seq<Database>)
    ensures forall a :: a in DumpActions(dbs) ==> IsDumpOf(a, dbs)
    ensures forall a :: a in LoadActions(dbs) ==> IsLoadOf(a, dbs)
  {
  }
}
