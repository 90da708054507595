/**
 Database blocks nested in tasks: their dump files reach a snapshot only if some backup path covers them,
 and then a restore brings these databases back too.
 */
module NestedRoundTrip {
  import opened Wrappers
  import opened ResticOptions
  import opened Jobs
  import opened Tasks
  import opened Pipeline
  import opened RoundTrip

  /** Some path of the backup covers `path`. */
  predicate Covered(j: Job, path: string) { exists p :: p in BackupPaths(j) && Under(p, path) }

  /** Nested dump files are not among the backup paths of their own accord. */
  lemma CoveredExactly(j: Job, path: string)
    ensures Covered(j, path) <==>
            || (exists p :: p in j.backup.paths && Under(p, path))
            || (exists t :: t in j.mysql && Under(t.dumpToPath, path))
            || (exists t :: t in j.postgres && Under(t.dumpToPath, path))
            || (exists t :: t in j.sqlite && Under(t.dumpToPath, path))
  {
    var a, b, c := DumpPaths(MySQLs(j.mysql)), DumpPaths(Postgreses(j.postgres)), DumpPaths(Sqlites(j.sqlite));
    DumpPathsByKind(j);
    assert BackupPaths(j) == j.backup.paths + (a + b + c);
    EitherCovers(j.backup.paths, a + b + c, path);
    EitherCovers(a + b, c, path);
    EitherCovers(a, b, path);
    MySQLsCover(j.mysql, path);
    PostgresesCover(j.postgres, path);
    SqlitesCover(j.sqlite, path);
  }

  predicate OneCovers(paths: seq<string>, path: string) { exists p :: p in paths && Under(p, path) }

  lemma EitherCovers(a: seq<string>, b: seq<string>, path: string)
    ensures OneCovers(a + b, path) <==> OneCovers(a, path) || OneCovers(b, path)
  {
    assert forall p :: p in a + b <==> p in a || p in b;
  }

  lemma MySQLsCover(ts: seq<JobTaskMySQL>, path: string)
    ensures OneCovers(DumpPaths(MySQLs(ts)), path) <==> exists t :: t in ts && Under(t.dumpToPath, path)
  {
    var paths := DumpPaths(MySQLs(ts));
    assert forall i :: 0 <= i < |ts| ==> paths[i] == ts[i].dumpToPath && paths[i] in paths && ts[i] in ts;
  }

  lemma PostgresesCover(ts: seq<JobTaskPostgres>, path: string)
    ensures OneCovers(DumpPaths(Postgreses(ts)), path) <==> exists t :: t in ts && Under(t.dumpToPath, path)
  {
    var paths := DumpPaths(Postgreses(ts));
    assert forall i :: 0 <= i < |ts| ==> paths[i] == ts[i].dumpToPath && paths[i] in paths && ts[i] in ts;
  }

  lemma SqlitesCover(ts: seq<JobTaskSqlite>, path: string)
    ensures OneCovers(DumpPaths(Sqlites(ts)), path) <==> exists t :: t in ts && Under(t.dumpToPath, path)
  {
    var paths := DumpPaths(Sqlites(ts));
    assert forall i :: 0 <= i < |ts| ==> paths[i] == ts[i].dumpToPath && paths[i] in paths && ts[i] in ts;
  }

  lemma {:induction false} BlockPlanned(tasks: seq<JobTask>, paths: seq<string>, snapshot: string, db: Database)
    requires db in NestedDatabases(tasks)
    ensures DumpOf(db) in BackupActions(AllPre(tasks), paths)
    ensures LoadOf(db) in RestoreActions(AllPost(tasks), snapshot)
    decreases |tasks|
  {
    var front, t := tasks[..|tasks| - 1], tasks[|tasks| - 1];
    var dbs := TaskDatabases(t);
    BackupActionsConcat(AllPre(front), TaskPre(t), paths);
    RestoreActionsConcat(AllPost(front), TaskPost(t), snapshot);
    if db in NestedDatabases(front) {
      BlockPlanned(front, paths, snapshot, db);
    } else {
      var i :| 0 <= i < |dbs| && dbs[i] == db;
      DumpTaskActions(dbs, paths, snapshot);
      LoadTaskActions(dbs, paths, snapshot);
      BackupActionsConcat(PreTasks(dbs), UserTasks(t.preScripts, t.name), paths);
      RestoreActionsConcat(UserTasks(t.postScripts, t.name), PostTasks(dbs), snapshot);
      assert DumpActions(dbs)[i] == DumpOf(db) && LoadActions(dbs)[i] == LoadOf(db);
    }
  }

  /** The blocks of a task that take part are its MySQL and its Sqlite blocks. */
  lemma {:induction false} NestedMembers(tasks: seq<JobTask>)
    ensures forall t, m :: t in tasks && m in t.mysql ==> OfMySQL(m) in NestedDatabases(tasks)
    ensures forall t, m :: t in tasks && m in t.sqlite ==> OfSqlite(m) in NestedDatabases(tasks)
    ensures (forall t :: t in tasks ==> t.mysql == [] && t.sqlite == []) ==> NestedDatabases(tasks) == []
    decreases |tasks|
  {
    if tasks != [] {
      var front, last := tasks[..|tasks| - 1], tasks[|tasks| - 1];
      NestedMembers(front);
      TaskMembers(last);
      assert forall t :: t in tasks <==> t in front || t == last;
    }
  }

  lemma TaskMembers(t: JobTask)
    ensures forall m :: m in t.mysql ==> OfMySQL(m) in TaskDatabases(t)
    ensures forall m :: m in t.sqlite ==> OfSqlite(m) in TaskDatabases(t)
    ensures t.mysql == [] && t.sqlite == [] ==> TaskDatabases(t) == []
  {
    forall m | m in t.mysql ensures OfMySQL(m) in TaskDatabases(t) {
      var i :| 0 <= i < |t.mysql| && t.mysql[i] == m;
      assert TaskDatabases(t)[i] == OfMySQL(m);
    }
    forall m | m in t.sqlite ensures OfSqlite(m) in TaskDatabases(t) {
      var i :| 0 <= i < |t.sqlite| && t.sqlite[i] == m;
      assert TaskDatabases(t)[|t.mysql| + i] == OfSqlite(m);
    }
  }

  /** Every MySQL and Sqlite block nested in a task is dumped before the backup and loaded after the restore. */
  lemma NestedPlanned(tasks: seq<JobTask>, t: JobTask, paths: seq<string>, snapshot: string)
    requires t in tasks
    ensures forall m :: m in t.mysql ==>
              && Shell(Dump(MySQLData(m.hostname, m.port, m.database, m.tables), m.dumpToPath)) in BackupActions(AllPre(tasks), paths)
              && Shell(Load(m.dumpToPath, MySQLData(m.hostname, m.port, m.database, m.tables))) in RestoreActions(AllPost(tasks), snapshot)
    ensures forall m :: m in t.sqlite ==>
              && Shell(Dump(File(m.path), m.dumpToPath)) in BackupActions(AllPre(tasks), paths)
              && Shell(Load(m.dumpToPath, File(m.path))) in RestoreActions(AllPost(tasks), snapshot)
  {
    NestedMembers(tasks);
    forall m | m in t.mysql
      ensures DumpOf(OfMySQL(m)) in BackupActions(AllPre(tasks), paths) && LoadOf(OfMySQL(m)) in RestoreActions(AllPost(tasks), snapshot)
    {
      BlockPlanned(tasks, paths, snapshot, OfMySQL(m));
    }
    forall m | m in t.sqlite
      ensures DumpOf(OfSqlite(m)) in BackupActions(AllPre(tasks), paths) && LoadOf(OfSqlite(m)) in RestoreActions(AllPost(tasks), snapshot)
    {
      BlockPlanned(tasks, paths, snapshot, OfSqlite(m));
    }
  }

  /** Tasks without MySQL and Sqlite blocks do nothing but run scripts: nested Postgres blocks have no part in it. */
  lemma NestedPostgresIdle(tasks: seq<JobTask>, paths: seq<string>, snapshot: string)
    requires forall t :: t in tasks ==> t.mysql == [] && t.sqlite == []
    ensures forall a :: a in BackupActions(AllPre(tasks), paths) || a in BackupActions(AllPost(tasks), paths) ==> IsScript(a)
    ensures forall a :: a in RestoreActions(AllPre(tasks), snapshot) || a in RestoreActions(AllPost(tasks), snapshot) ==> IsScript(a)
  {
    NestedMembers(tasks);
    NestedOnBackup(tasks, paths);
    NestedOnRestore(tasks, snapshot);
  }

  /** The last place below `hi` where `a` is done. */
  lemma {:induction false} LastDone(ran: seq<Event>, hi: nat, a: Action) returns (k: nat)
    requires hi <= |ran| && exists i :: 0 <= i < hi && ran[i].action == a
    ensures k < hi && ran[k].action == a && forall i :: k < i < hi ==> ran[i].action != a
    decreases hi
  {
    if ran[hi - 1].action == a {
      k := hi - 1;
    } else {
      k := LastDone(ran, hi - 1, a);
    }
  }

  /** A nested block that is apart from every other block of the job. */
  ghost predicate ApartFromAll(j: Job, db: Database) {
    && DumpsElsewhere(db)
    && forall o {:trigger Apart(o, db)} :: (o in Databases(j) || o in NestedDatabases(j.tasks)) && o != db ==> Apart(o, db)
  }

  /** Until the backup every event leaves a nested block's source alone. */
  lemma {:induction false} SourceKept(tools: Tools, j: Job, w: World, ran: seq<Event>, end: World,
                                      n: nat, b: nat, hi: nat, db: Database)
    requires Chained(w, ran, end) && Source(db) in w.cells && hi <= b
    requires BackupShape(ran, n, b, Databases(j), NestedDatabases(j.tasks)) && AllLawful(tools, ran)
    requires ApartFromAll(j, db) && ScriptsSpare(ran, {Source(db)})
    ensures Untouched(ran, 0, hi, Source(db))
    decreases hi
  {
    if hi > 0 {
      var k := hi - 1;
      SourceKept(tools, j, w, ran, end, n, b, k, db);
      CarriedOver(w, ran, end, 0, k, Source(db));
      assert ran[k] in ran && Lawful(tools, ran[k]);
      if n <= k && !IsScript(ran[k].action) {
        var o := DumpedBlock(j, ran, n, b, k);
        if o == db {
          DumpKeepsSource(tools, ran[k], db);
        } else {
          assert Apart(o, db);
          OverlapReflexive(Source(db));
          DumpLeaves(tools, ran[k], o, Source(db));
        }
      }
      assert SameAt(Source(db), ran[k].before, ran[k].after);
    }
  }

  lemma DumpedBlock(j: Job, ran: seq<Event>, n: nat, b: nat, k: nat) returns (o: Database)
    requires BackupShape(ran, n, b, Databases(j), NestedDatabases(j.tasks))
    requires n <= k < b && !IsScript(ran[k].action)
    ensures (o in Databases(j) || o in NestedDatabases(j.tasks)) && ran[k].action == DumpOf(o)
  {
    var own := Databases(j);
    if k < n + |own| {
      o := own[k - n];
    } else {
      o :| o in NestedDatabases(j.tasks) && ran[k].action == DumpOf(o);
    }
  }

  /** A dump does not touch what it reads. */
  lemma DumpKeepsSource(tools: Tools, e: Event, db: Database)
    requires Lawful(tools, e) && e.status.Done? && e.action == DumpOf(db)
    requires DumpsElsewhere(db) && Source(db) in e.before.cells
    ensures SameAt(Source(db), e.before, e.after)
  {
  }

  /** From its last dump to the backup nothing writes a nested block's dump file. */
  lemma NestedFileWaits(tools: Tools, j: Job, ran: seq<Event>, n: nat, b: nat, d: nat, db: Database)
    requires BackupShape(ran, n, b, Databases(j), NestedDatabases(j.tasks)) && AllLawful(tools, ran)
    requires n <= d < b && forall k :: d < k < b ==> ran[k].action != DumpOf(db)
    requires ApartFromAll(j, db) && ScriptsSpare(ran, {File(DumpPath(db))})
    ensures Untouched(ran, d + 1, b, File(DumpPath(db)))
  {
    var file := File(DumpPath(db));
    forall k | d < k < b ensures SameAt(file, ran[k].before, ran[k].after) {
      assert ran[k] in ran && Lawful(tools, ran[k]);
      if !IsScript(ran[k].action) {
        var o := DumpedBlock(j, ran, n, b, k);
        assert Apart(o, db);
        DumpLeaves(tools, ran[k], o, file);
      }
    }
  }

  lemma SecondAt<T>(a: seq<T>, b: seq<T>, c: T, d: seq<T>, e: seq<T>, i: nat)
    requires i < |b|
    ensures (a + b + [c] + d + e)[|a| + i] == b[i]
  {
  }

  /** `a` is done nowhere but between `n` and `b`. */
  ghost predicate Within(ran: seq<Event>, n: nat, b: nat, a: Action) {
    n <= b <= |ran| && forall k :: 0 <= k < |ran| && ran[k].action == a ==> n <= k < b
  }

  /** An action planned in the second part, and done nowhere from `b` on, is done before `b`. */
  lemma DoneBefore(first: seq<Action>, second: seq<Action>, backup: Action, tail: seq<Action>, forget: seq<Action>,
                   ran: seq<Event>, n: nat, b: nat, a: Action) returns (d: nat)
    requires n <= |ran| && AllDone(first + second + [backup] + tail + forget, ran[n..]) && a in second
    requires Within(ran, n, b, a)
    ensures n <= d < b && ran[d].action == a
    ensures forall k :: d < k < b ==> ran[k].action != a
  {
    var i :| 0 <= i < |second| && second[i] == a;
    SecondAt(first, second, backup, tail, forget, i);
    assert ran[n..][|first| + i] == ran[n + (|first| + i)];
    d := LastDone(ran, b, a);
  }

  lemma DumpsWithin(ran: seq<Event>, n: nat, b: nat, own: seq<Database>, nested: seq<Database>, db: Database)
    requires BackupShape(ran, n, b, own, nested)
    ensures Within(ran, n, b, DumpOf(db))
  {
  }

  /** Every planned dump of a successful backup is done before the backup. */
  lemma NestedDumpDone(j: Job, ran: seq<Event>, n: nat, b: nat, db: Database) returns (d: nat)
    requires BackupRun(j, ran, true) && n == InitLength(ran) && db in NestedDatabases(j.tasks)
    requires Within(ran, n, b, DumpOf(db))
    ensures n <= d < b && ran[d].action == DumpOf(db)
    ensures forall k :: d < k < b ==> ran[k].action != DumpOf(db)
  {
    var own, nested := DumpActions(Databases(j)), BackupActions(AllPre(j.tasks), BackupPaths(j));
    BlockPlanned(j.tasks, BackupPaths(j), "", db);
    d := DoneBefore(own, nested, TheBackup(j), BackupTail(j), ForgetPlan(j), ran, n, b, DumpOf(db));
  }

  /** A successful backup saves a nested block's content, as it was at the start, if a path covers its dump file. */
  lemma NestedSaved(tools: Tools, j: Job, w: World, ran: seq<Event>, end: World, db: Database, spared: set<Cell>)
    requires BackupRun(j, ran, true) && Chained(w, ran, end) && FairBackup(tools, j, ran, spared)
    requires db in NestedDatabases(j.tasks) && ApartFromAll(j, db) && Covered(j, DumpPath(db))
    requires Source(db) in w.cells && Source(db) in spared && File(DumpPath(db)) in spared
    ensures Saved(end, DumpPath(db), tools.dump(Source(db), w.cells[Source(db)]))
  {
    ShapeOfBackup(j, ran);
    var n := InitLength(ran);
    var b: nat :| BackupShape(ran, n, b, Databases(j), NestedDatabases(j.tasks)) && ran[b].action == TheBackup(j);
    DumpsWithin(ran, n, b, Databases(j), NestedDatabases(j.tasks), db);
    var d := NestedDumpDone(j, ran, n, b, db);
    SpareOne(ran, spared, Source(db));
    SpareOne(ran, spared, File(DumpPath(db)));
    SourceKept(tools, j, w, ran, end, n, b, d, db);
    CarriedOver(w, ran, end, 0, d, Source(db));
    NestedFileWaits(tools, j, ran, n, b, d, db);
    SnapshotStays(ran, n, b, Databases(j), NestedDatabases(j.tasks), spared);
    LawfulFrom(tools, ran);
    SavedByBackup(tools, w, ran, end, d, b, Source(db), DumpPath(db));
  }

  // ----- The restore half --------------------------------------------------------------------------

  lemma LoadedBlock(j: Job, ran: seq<Event>, r: nat, l: nat, k: nat) returns (o: Database)
    requires RestoreShape(ran, r, l, Databases(j), NestedDatabases(j.tasks))
    requires r < k < |ran| && !IsScript(ran[k].action)
    ensures (o in Databases(j) || o in NestedDatabases(j.tasks)) && ran[k].action == LoadOf(o)
  {
    var own := Databases(j);
    if l <= k {
      o := own[k - l];
    } else {
      o :| o in NestedDatabases(j.tasks) && ran[k].action == LoadOf(o);
    }
  }

  /** From the restore on nothing writes a nested block's dump file. */
  lemma FileKeptAfterRestore(tools: Tools, j: Job, ran: seq<Event>, r: nat, l: nat, db: Database)
    requires RestoreShape(ran, r, l, Databases(j), NestedDatabases(j.tasks)) && AllLawful(tools, ran)
    requires ApartFromAll(j, db) && ScriptsSpare(ran, {File(DumpPath(db))})
    ensures Untouched(ran, r + 1, |ran|, File(DumpPath(db)))
  {
    var file := File(DumpPath(db));
    forall k | r < k < |ran| ensures SameAt(file, ran[k].before, ran[k].after) {
      assert ran[k] in ran && Lawful(tools, ran[k]);
      if !IsScript(ran[k].action) {
        var o := LoadedBlock(j, ran, r, l, k);
        assert o != db ==> Apart(o, db);
        LoadLeaves(tools, ran[k], o, file);
      }
    }
  }

  /** After its last load nothing writes a nested block's source. */
  lemma SourceKeptAfterLoad(tools: Tools, j: Job, ran: seq<Event>, r: nat, l: nat, at: nat, db: Database)
    requires RestoreShape(ran, r, l, Databases(j), NestedDatabases(j.tasks)) && AllLawful(tools, ran)
    requires r < at < |ran| && forall k :: at < k < |ran| ==> ran[k].action != LoadOf(db)
    requires ApartFromAll(j, db) && ScriptsSpare(ran, {Source(db)})
    ensures Untouched(ran, at + 1, |ran|, Source(db))
  {
    forall k | at < k < |ran| ensures SameAt(Source(db), ran[k].before, ran[k].after) {
      assert ran[k] in ran && Lawful(tools, ran[k]);
      if !IsScript(ran[k].action) {
        var o := LoadedBlock(j, ran, r, l, k);
        assert Apart(o, db);
        LoadLeaves(tools, ran[k], o, Source(db));
      }
    }
  }

  /** Every planned nested load of a successful restore is done after the restore. */
  lemma DoneAfter(head: seq<Action>, restore: Action, middle: seq<Action>, loads: seq<Action>, ran: seq<Event>, a: Action)
    returns (at: nat)
    requires ran != [] && AllDone(head + [restore] + (middle + loads), ran[1..]) && a in middle
    ensures 1 + |head| < at < |ran| && ran[at].action == a
    ensures forall k :: at < k < |ran| ==> ran[k].action != a
  {
    var i :| 0 <= i < |middle| && middle[i] == a;
    var plan := head + [restore] + (middle + loads);
    assert plan[|head| + 1 + i] == (middle + loads)[i] == a;
    assert ran[1..][|head| + 1 + i] == ran[|head| + 2 + i];
    at := LastDone(ran, |ran|, a);
  }

  lemma NestedLoadDone(j: Job, snapshot: string, ran: seq<Event>, db: Database) returns (at: nat)
    requires RestoreRun(j, snapshot, ran, true) && db in NestedDatabases(j.tasks)
    ensures 1 + |RestoreHead(j, snapshot)| < at < |ran| && ran[at].action == LoadOf(db)
    ensures forall k :: at < k < |ran| ==> ran[k].action != LoadOf(db)
  {
    var head, middle := RestoreHead(j, snapshot), RestoreActions(AllPost(j.tasks), snapshot);
    BlockPlanned(j.tasks, [], snapshot, db);
    at := DoneAfter(head, TheRestore(j, snapshot), middle, LoadActions(Databases(j)), ran, LoadOf(db));
  }

  /** A successful restore of the newest snapshot brings a nested block to what its saved dump holds. */
  lemma NestedLoaded(tools: Tools, j: Job, snapshot: string, w: World, ran: seq<Event>, end: World, db: Database,
                     data: string, spared: set<Cell>)
    requires LoadUndoesDump(tools) && db in NestedDatabases(j.tasks) && ApartFromAll(j, db)
    requires snapshot == "" || snapshot == "latest"
    requires Chained(w, ran, end) && RestoreRun(j, snapshot, ran, true) && FairRestore(tools, j, ran, spared)
    requires Source(db) in spared && File(DumpPath(db)) in spared
    requires Saved(w, DumpPath(db), tools.dump(Source(db), data))
    ensures Source(db) in end.cells && end.cells[Source(db)] == data
  {
    var own, nested := Databases(j), NestedDatabases(j.tasks);
    ShapeOfRestore(j, snapshot, ran);
    var r := RestoreAt(j, snapshot);
    var l: nat :| RestoreShape(ran, r, l, own, nested) && ran[r].action == TheRestore(j, snapshot);
    var at := NestedLoadDone(j, snapshot, ran, db);
    BeforeRestore(tools, ran, r, l, own, nested, spared);
    SpareOne(ran, spared, Source(db));
    SpareOne(ran, spared, File(DumpPath(db)));
    FileKeptAfterRestore(tools, j, ran, r, l, db);
    SourceKeptAfterLoad(tools, j, ran, r, l, at, db);
    LawfulFrom(tools, ran);
    LoadedByRestore(tools, w, ran, end, r, at, Source(db), DumpPath(db), data);
  }

  /**
   Backup, loss, restore for nested blocks: under the hypotheses of `RestoreUndoesLoss`, and with scripts
   that leave them alone, a nested block that is apart from the other blocks and whose dump file some
   backup path covers is back to its content at the start of the backup.
   */
  lemma RestoreUndoesNestedLoss(tools: Tools, j: Job, snapshot: string, spared: set<Cell>,
                                w0: World, backup: seq<Event>, w1: World, w2: World, restore: seq<Event>, w3: World)
    requires LoadUndoesDump(tools)
    requires forall t, m :: t in j.tasks && m in t.mysql ==>
               MySQLData(m.hostname, m.port, m.database, m.tables) in spared && File(m.dumpToPath) in spared
    requires forall t, m :: t in j.tasks && m in t.sqlite ==> File(m.path) in spared && File(m.dumpToPath) in spared
    requires Chained(w0, backup, w1) && BackupRun(j, backup, true) && FairBackup(tools, j, backup, spared)
    requires w2.repo == w1.repo
    requires snapshot == "" || snapshot == "latest"
    requires Chained(w2, restore, w3) && RestoreRun(j, snapshot, restore, true)
    requires FairRestore(tools, j, restore, spared)
    ensures forall t, m :: t in j.tasks && m in t.mysql && ApartFromAll(j, OfMySQL(m)) && Covered(j, m.dumpToPath) ==>
              Restored(MySQLData(m.hostname, m.port, m.database, m.tables), w0, w3)
    ensures forall t, m :: t in j.tasks && m in t.sqlite && ApartFromAll(j, OfSqlite(m)) && Covered(j, m.dumpToPath) ==>
              Restored(File(m.path), w0, w3)
  {
    NestedMembers(j.tasks);
    forall t, m | t in j.tasks && m in t.mysql && ApartFromAll(j, OfMySQL(m)) && Covered(j, m.dumpToPath)
      ensures Restored(MySQLData(m.hostname, m.port, m.database, m.tables), w0, w3)
    {
      NestedBlockRestored(tools, j, snapshot, spared, w0, backup, w1, w2, restore, w3, OfMySQL(m));
    }
    forall t, m | t in j.tasks && m in t.sqlite && ApartFromAll(j, OfSqlite(m)) && Covered(j, m.dumpToPath)
      ensures Restored(File(m.path), w0, w3)
    {
      NestedBlockRestored(tools, j, snapshot, spared, w0, backup, w1, w2, restore, w3, OfSqlite(m));
    }
  }

  lemma NestedBlockRestored(tools: Tools, j: Job, snapshot: string, spared: set<Cell>, w0: World, backup: seq<Event>, w1: World,
                            w2: World, restore: seq<Event>, w3: World, db: Database)
    requires LoadUndoesDump(tools) && db in NestedDatabases(j.tasks) && ApartFromAll(j, db) && Covered(j, DumpPath(db))
    requires Source(db) in spared && File(DumpPath(db)) in spared
    requires Chained(w0, backup, w1) && BackupRun(j, backup, true) && FairBackup(tools, j, backup, spared)
    requires w2.repo == w1.repo
    requires snapshot == "" || snapshot == "latest"
    requires Chained(w2, restore, w3) && RestoreRun(j, snapshot, restore, true) && FairRestore(tools, j, restore, spared)
    ensures Restored(Source(db), w0, w3)
  {
    if Source(db) in w0.cells {
      NestedSaved(tools, j, w0, backup, w1, db, spared);
      NestedLoaded(tools, j, snapshot, w2, restore, w3, db, w0.cells[Source(db)], spared);
    }
  }

  // ----- Uncovered dump files ----------------------------------------------------------------------

  /** The newest snapshot holds the file at `path`, whatever its content. */
  ghost predicate Holds(w: World, path: string) {
    w.repo.Some? && |w.repo.value| > 0 && File(path) in w.repo.value[|w.repo.value| - 1]
  }

  ghost predicate HasSnapshot(w: World) { w.repo.Some? && |w.repo.value| > 0 }

  lemma SnapshotHolds(tools: Tools, e: Event, path: string)
    requires Lawful(tools, e) && e.status.Done? && e.action.ResticBackup? && TakesAll(e.action.backupOpts)
    ensures HasSnapshot(e.after)
    ensures Holds(e.after, path) <==> File(path) in e.before.cells && exists p :: p in e.action.paths && Under(p, path)
  {
  }

  lemma HeldToEnd(w: World, ran: seq<Event>, end: World, b: nat, path: string)
    requires Chained(w, ran, end) && b < |ran| && HasSnapshot(ran[b].after)
    requires forall k :: b < k < |ran| ==> KeepsNewest(ran[k])
    ensures HasSnapshot(end) && (Holds(end, path) <==> Holds(ran[b].after, path))
  {
    NextWorld(w, ran, end, b);
    RepoCarriedOver(w, ran, end, b + 1, |ran|);
  }

  /**
   After a successful backup, made at `b`, and as long as the repository stays, the newest snapshot holds a
   file exactly if it was there then and covered.
   */
  lemma HeldIffCovered(tools: Tools, j: Job, path: string, spared: set<Cell>,
                       w: World, ran: seq<Event>, end: World, b: nat, later: World)
    requires Chained(w, ran, end) && BackupRun(j, ran, true) && FairBackup(tools, j, ran, spared)
    requires b < |ran| && ran[b].action.ResticBackup? && later.repo == end.repo
    ensures HasSnapshot(later)
    ensures Holds(later, path) <==> File(path) in ran[b].before.cells && Covered(j, path)
  {
    var own, nested := Databases(j), NestedDatabases(j.tasks);
    ShapeOfBackup(j, ran);
    var at: nat :| BackupShape(ran, InitLength(ran), at, own, nested) && ran[at].action == TheBackup(j);
    OneBackup(ran, InitLength(ran), at, own, nested, b);
    HeldFrom(tools, j, path, spared, w, ran, end, InitLength(ran), at, own, nested, later);
  }

  lemma HeldFrom(tools: Tools, j: Job, path: string, spared: set<Cell>, w: World, ran: seq<Event>, end: World,
                 n: nat, at: nat, own: seq<Database>, nested: seq<Database>, later: World)
    requires Chained(w, ran, end) && FairBackup(tools, j, ran, spared) && later.repo == end.repo
    requires BackupShape(ran, n, at, own, nested) && ran[at].action == TheBackup(j)
    ensures HasSnapshot(later)
    ensures Holds(later, path) <==> File(path) in ran[at].before.cells && Covered(j, path)
  {
    LawfulFrom(tools, ran);
    SnapshotStays(ran, n, at, own, nested, spared);
    SnapshotHolds(tools, ran[at], path);
    HeldToEnd(w, ran, end, at, path);
  }

  lemma OneBackup(ran: seq<Event>, n: nat, at: nat, own: seq<Database>, nested: seq<Database>, b: nat)
    requires BackupShape(ran, n, at, own, nested) && b < |ran| && ran[b].action.ResticBackup?
    ensures b == at
  {
  }

  lemma OneRestore(ran: seq<Event>, at: nat, l: nat, own: seq<Database>, nested: seq<Database>, r: nat)
    requires RestoreShape(ran, at, l, own, nested) && r < |ran| && ran[r].action.ResticRestore?
    ensures r == at
  {
  }

  lemma RestoredIffHeld(tools: Tools, e: Event, path: string)
    requires Lawful(tools, e) && e.status.Done? && e.action.ResticRestore? && HasSnapshot(e.before)
    requires e.action.snapshot == "latest" && InPlace(e.action.restoreOpts)
    ensures File(path) in e.after.cells <==> File(path) in e.before.cells || Holds(e.before, path)
  {
  }

  /** Up to the restore nothing brings a file back or changes the newest snapshot. */
  lemma LostUntilRestore(tools: Tools, w: World, ran: seq<Event>, end: World, r: nat, l: nat,
                         own: seq<Database>, nested: seq<Database>, path: string, spared: set<Cell>)
    requires Chained(w, ran, end) && RestoreShape(ran, r, l, own, nested)
    requires AllLawful(tools, ran) && ScriptsSpare(ran, spared) && File(path) in spared
    requires File(path) !in w.cells && HasSnapshot(w)
    ensures File(path) !in ran[r].before.cells && HasSnapshot(ran[r].before)
    ensures Holds(ran[r].before, path) <==> Holds(w, path)
  {
    BeforeRestore(tools, ran, r, l, own, nested, spared);
    RepoCarriedOver(w, ran, end, 0, r);
    forall k | 0 <= k < r ensures SameAt(File(path), ran[k].before, ran[k].after) {
      assert ran[k] in ran && Lawful(tools, ran[k]);
    }
    CarriedOver(w, ran, end, 0, r, File(path));
  }

  /** After the restore, made at `r`, a file that was lost is there exactly if the newest snapshot holds it. */
  lemma BackIffHeld(tools: Tools, j: Job, snapshot: string, path: string, spared: set<Cell>,
                    w: World, ran: seq<Event>, end: World, r: nat)
    requires snapshot == "" || snapshot == "latest"
    requires Chained(w, ran, end) && RestoreRun(j, snapshot, ran, true) && FairRestore(tools, j, ran, spared)
    requires File(path) in spared && File(path) !in w.cells && HasSnapshot(w)
    requires r < |ran| && ran[r].action.ResticRestore?
    ensures File(path) in ran[r].after.cells <==> Holds(w, path)
  {
    var own, nested, at := Databases(j), NestedDatabases(j.tasks), RestoreAt(j, snapshot);
    ShapeOfRestore(j, snapshot, ran);
    var l: nat :| RestoreShape(ran, at, l, own, nested) && ran[at].action == TheRestore(j, snapshot);
    OneRestore(ran, at, l, own, nested, r);
    LawfulFrom(tools, ran);
    LostUntilRestore(tools, w, ran, end, at, l, own, nested, path, spared);
    RestoredIffHeld(tools, ran[at], path);
  }

  /**
   Over whole runs: after a successful backup, made at `b`, the loss of a file, and a successful restore, made
   at `r`, the file is there again exactly if it was there at the backup and some backup path covers it.
   */
  lemma FileBackIffCovered(tools: Tools, j: Job, snapshot: string, path: string, spared: set<Cell>,
                           w0: World, backup: seq<Event>, w1: World, b: nat, w2: World, restore: seq<Event>, w3: World, r: nat)
    requires Chained(w0, backup, w1) && BackupRun(j, backup, true) && FairBackup(tools, j, backup, spared)
    requires w2.repo == w1.repo && File(path) !in w2.cells && File(path) in spared
    requires snapshot == "" || snapshot == "latest"
    requires Chained(w2, restore, w3) && RestoreRun(j, snapshot, restore, true) && FairRestore(tools, j, restore, spared)
    requires b < |backup| && backup[b].action.ResticBackup? && r < |restore| && restore[r].action.ResticRestore?
    ensures File(path) in restore[r].after.cells <==> File(path) in backup[b].before.cells && Covered(j, path)
  {
    HeldIffCovered(tools, j, path, spared, w0, backup, w1, b, w2);
    BackIffHeld(tools, j, snapshot, path, spared, w2, restore, w3, r);
  }

  /** When the backup is made the dump file of a nested block is there. */
  lemma DumpThereAtBackup(tools: Tools, j: Job, w: World, ran: seq<Event>, end: World, db: Database, spared: set<Cell>)
    returns (b: nat)
    requires Chained(w, ran, end) && BackupRun(j, ran, true) && FairBackup(tools, j, ran, spared)
    requires db in NestedDatabases(j.tasks) && ApartFromAll(j, db) && Source(db) in w.cells
    requires Source(db) in spared && File(DumpPath(db)) in spared
    ensures b < |ran| && ran[b].action.ResticBackup? && File(DumpPath(db)) in ran[b].before.cells
  {
    ShapeOfBackup(j, ran);
    var n := InitLength(ran);
    b :| BackupShape(ran, n, b, Databases(j), NestedDatabases(j.tasks)) && ran[b].action == TheBackup(j);
    SpareOne(ran, spared, Source(db));
    SpareOne(ran, spared, File(DumpPath(db)));
    DumpsWithin(ran, n, b, Databases(j), NestedDatabases(j.tasks), db);
    var d := NestedDumpDone(j, ran, n, b, db);
    SourceKept(tools, j, w, ran, end, n, b, d, db);
    CarriedOver(w, ran, end, 0, d, Source(db));
    NestedFileWaits(tools, j, ran, n, b, d, db);
    LawfulFrom(tools, ran);
    DumpCarried(tools, w, ran, end, d, b, db);
  }

  lemma DumpCarried(tools: Tools, w: World, ran: seq<Event>, end: World, d: nat, b: nat, db: Database)
    requires Chained(w, ran, end) && d < b < |ran|
    requires Lawful(tools, ran[d]) && ran[d].status.Done? && ran[d].action == DumpOf(db) && Source(db) in ran[d].before.cells
    requires Untouched(ran, d + 1, b, File(DumpPath(db)))
    ensures File(DumpPath(db)) in ran[b].before.cells
  {
    NextWorld(w, ran, end, d);
    CarriedOver(w, ran, end, d + 1, b, File(DumpPath(db)));
  }

  lemma LoadsAfterRestore(ran: seq<Event>, r: nat, l: nat, own: seq<Database>, nested: seq<Database>, k: nat, db: Database)
    requires RestoreShape(ran, r, l, own, nested) && k < |ran| && ran[k].action == LoadOf(db)
    ensures r < k
  {
  }

  /** Each load of a nested block finds its dump file exactly if the restore brought it. */
  lemma DumpKeptToLoad(tools: Tools, j: Job, snapshot: string, w: World, ran: seq<Event>, end: World,
                       db: Database, k: nat, spared: set<Cell>)
    requires Chained(w, ran, end) && RestoreRun(j, snapshot, ran, true) && FairRestore(tools, j, ran, spared)
    requires ApartFromAll(j, db) && File(DumpPath(db)) in spared
    requires k < |ran| && ran[k].action == LoadOf(db)
    ensures RestoreAt(j, snapshot) < |ran| && ran[RestoreAt(j, snapshot)].action.ResticRestore?
    ensures File(DumpPath(db)) in ran[k].before.cells <==> File(DumpPath(db)) in ran[RestoreAt(j, snapshot)].after.cells
  {
    var own, nested, r := Databases(j), NestedDatabases(j.tasks), RestoreAt(j, snapshot);
    ShapeOfRestore(j, snapshot, ran);
    var l: nat :| RestoreShape(ran, r, l, own, nested) && ran[r].action == TheRestore(j, snapshot);
    SpareOne(ran, spared, File(DumpPath(db)));
    LoadsAfterRestore(ran, r, l, own, nested, k, db);
    FileKeptAfterRestore(tools, j, ran, r, l, db);
    NextWorld(w, ran, end, r);
    CarriedOver(w, ran, end, r + 1, k, File(DumpPath(db)));
  }

  /**
   So, once the dump file of a nested block is lost, each load of that block in the restore finds it again
   exactly if some backup path covers it.
   */
  lemma NestedLoadFindsIffCovered(tools: Tools, j: Job, snapshot: string, db: Database, k: nat, spared: set<Cell>,
                                  w0: World, backup: seq<Event>, w1: World, w2: World, restore: seq<Event>, w3: World)
    requires db in NestedDatabases(j.tasks) && ApartFromAll(j, db) && Source(db) in w0.cells
    requires Source(db) in spared && File(DumpPath(db)) in spared
    requires Chained(w0, backup, w1) && BackupRun(j, backup, true) && FairBackup(tools, j, backup, spared)
    requires w2.repo == w1.repo && File(DumpPath(db)) !in w2.cells
    requires snapshot == "" || snapshot == "latest"
    requires Chained(w2, restore, w3) && RestoreRun(j, snapshot, restore, true) && FairRestore(tools, j, restore, spared)
    requires k < |restore| && restore[k].action == LoadOf(db)
    ensures File(DumpPath(db)) in restore[k].before.cells <==> Covered(j, DumpPath(db))
  {
    var path := DumpPath(db);
    var b := DumpThereAtBackup(tools, j, w0, backup, w1, db, spared);
    DumpKeptToLoad(tools, j, snapshot, w2, restore, w3, db, k, spared);
    FileBackIffCovered(tools, j, snapshot, path, spared, w0, backup, w1, b, w2, restore, w3, RestoreAt(j, snapshot));
  }

  // ----- A nested block that stays lost ------------------------------------------------------------

  /** A job with one Sqlite block, nested in its only task. */
  function OneNested(path: string, dumpTo: string, paths: seq<string>): Job {
    Job("job", "@daily", None,
        [JobTask("task", [], [], [], [], [JobTaskSqlite("block", path, dumpTo)])],
        BackupFilesTask(paths, None, Some(RestoreOpts([], [], [], [], "", "/", false)), ""), None, [], [], [])
  }

  lemma SingleTask(t: JobTask)
    ensures AllPre([t]) == TaskPre(t) && AllPost([t]) == TaskPost(t) && NestedDatabases([t]) == TaskDatabases(t)
  {
    assert [t][..0] == [];
  }

  /** What a task with nothing but one Sqlite block does. */
  lemma SingleBlock(t: JobTask, paths: seq<string>, snapshot: string)
    requires t.preScripts == [] && t.postScripts == [] && t.mysql == [] && |t.sqlite| == 1
    ensures var db := OfSqlite(t.sqlite[0]);
            && TaskDatabases(t) == [db]
            && BackupActions(TaskPre(t), paths) == [DumpOf(db)] && RestoreActions(TaskPre(t), snapshot) == []
            && BackupActions(TaskPost(t), paths) == [] && RestoreActions(TaskPost(t), snapshot) == [LoadOf(db)]
  {
    var db := OfSqlite(t.sqlite[0]);
    assert TaskDatabases(t) == [db];
    assert TaskPre(t) == PreTasks([db]) && TaskPost(t) == PostTasks([db]);
    DumpTaskActions([db], paths, snapshot);
    LoadTaskActions([db], paths, snapshot);
  }

  lemma OneNestedPlans(j: Job, t: JobTask, db: Database)
    requires j.tasks == [t] && j.mysql == [] && j.postgres == [] && j.sqlite == [] && j.forget.None?
    requires t.preScripts == [] && t.postScripts == [] && t.mysql == [] && |t.sqlite| == 1 && db == OfSqlite(t.sqlite[0])
    ensures Databases(j) == [] && NestedDatabases(j.tasks) == [db] && BackupPaths(j) == j.backup.paths
    ensures BackupPlan(j) + ForgetPlan(j) == [DumpOf(db), TheBackup(j)]
    ensures RestorePlan(j, "latest") == [TheRestore(j, "latest"), LoadOf(db)]
  {
    SingleTask(t);
    SingleBlock(t, BackupPaths(j), "latest");
    assert Databases(j) == [] && DumpPaths(Databases(j)) == [] && DumpActions([]) == [] && LoadActions([]) == [];
  }

  /** A listing and two more actions, as one run. */
  lemma ThreeEvents(tools: Tools, e0: Event, e1: Event, e2: Event)
    requires e0.status.Done? && e1.status.Done? && e0.after == e1.before && e1.after == e2.before
    requires Lawful(tools, e0) && Lawful(tools, e1) && Lawful(tools, e2)
    ensures var ran := [e0, e1, e2];
            && Chained(e0.before, ran, e2.after) && AllLawful(tools, ran)
            && Executes([e1.action, e2.action], ran[1..], e2.status.Done?)
  {
    var ran := [e0, e1, e2];
    assert ran[1..] == [e1, e2];
    assert forall i: nat :: Linked(ran, i);
  }

  lemma NoScripts(ran: seq<Event>, spared: set<Cell>)
    requires forall e :: e in ran ==> !IsScript(e.action)
    ensures ScriptsSpare(ran, spared)
  {
  }

  /** The dump of a Sqlite block into a file that was not there. */
  lemma DumpLawful(tools: Tools, db: Database, w: World, w': World)
    requires Source(db) in w.cells && w'.repo == w.repo
    requires w'.cells == w.cells[File(DumpPath(db)) := tools.dump(Source(db), w.cells[Source(db)])]
    ensures Lawful(tools, Event(DumpOf(db), Done, w, w'))
  {
  }

  /** A backup of such a job that leaves an empty snapshot. */
  lemma EmptyBackup(tools: Tools, j: Job, db: Database, data: string, spared: set<Cell>)
    returns (w0: World, backup: seq<Event>, w1: World)
    requires BackupPlan(j) + ForgetPlan(j) == [DumpOf(db), TheBackup(j)] && j.backup.backupOpts.None?
    requires Source(db).File? && !Covered(j, Source(db).path) && !Covered(j, DumpPath(db))
    ensures Chained(w0, backup, w1) && BackupRun(j, backup, true) && FairBackup(tools, j, backup, spared)
    ensures w0.cells == map[Source(db) := data] && w1.repo == Some([map[]])
  {
    w0 := World(map[Source(db) := data], Some([]));
    var w := World(w0.cells[File(DumpPath(db)) := tools.dump(Source(db), data)], Some([]));
    w1 := World(w.cells, Some([map[]]));
    assert Taken(w.cells, BackupPaths(j)) == map[];
    var e0, e1, e2 := Event(ResticSnapshots, Done, w0, w0), Event(DumpOf(db), Done, w0, w), Event(TheBackup(j), Done, w, w1);
    DumpLawful(tools, db, w0, w);
    ThreeEvents(tools, e0, e1, e2);
    backup := [e0, e1, e2];
    NoScripts(backup, spared);
  }

  /** A restore of it from nothing, whether or not the load of the missing dump file reports an error. */
  lemma EmptyRestore(tools: Tools, j: Job, db: Database, load: Status, spared: set<Cell>)
    returns (w2: World, restore: seq<Event>)
    requires RestorePlan(j, "latest") == [TheRestore(j, "latest"), LoadOf(db)]
    requires j.backup.restoreOpts.Some? && InPlace(j.backup.restoreOpts.value)
    ensures Chained(w2, restore, w2) && RestoreRun(j, "latest", restore, load.Done?) && FairRestore(tools, j, restore, spared)
    ensures w2 == World(map[], Some([map[]]))
  {
    w2 := World(map[], Some([map[]]));
    assert w2.cells + w2.repo.value[0] == w2.cells;
    var e0, e1, e2 := Event(ResticSnapshots, Done, w2, w2), Event(TheRestore(j, "latest"), Done, w2, w2), Event(LoadOf(db), load, w2, w2);
    ThreeEvents(tools, e0, e1, e2);
    restore := [e0, e1, e2];
    NoScripts(restore, spared);
  }

  /**
   A nested block that meets every hypothesis of the round trip but coverage, and is gone after a backup,
   the loss of everything but the repository, and a restore: for all paths, data and tools.
   */
  lemma UncoveredNestedStaysLost(tools: Tools, path: string, dumpTo: string, paths: seq<string>, data: string, load: Status,
                                 spared: set<Cell>)
    returns (w0: World, backup: seq<Event>, w1: World, w2: World, restore: seq<Event>)
    requires path != dumpTo && forall p :: p in paths ==> !Under(p, path) && !Under(p, dumpTo)
    ensures var j, db := OneNested(path, dumpTo, paths), OfSqlite(JobTaskSqlite("block", path, dumpTo));
            && db in NestedDatabases(j.tasks) && ApartFromAll(j, db) && !Covered(j, DumpPath(db))
            && Chained(w0, backup, w1) && BackupRun(j, backup, true) && FairBackup(tools, j, backup, spared)
            && w2.repo == w1.repo
            && Chained(w2, restore, w2) && RestoreRun(j, "latest", restore, load.Done?) && FairRestore(tools, j, restore, spared)
            && Source(db) in w0.cells && w0.cells[Source(db)] == data && Source(db) !in w2.cells
  {
    var j, db := OneNested(path, dumpTo, paths), OfSqlite(JobTaskSqlite("block", path, dumpTo));
    OneNestedPlans(j, j.tasks[0], db);
    w0, backup, w1 := EmptyBackup(tools, j, db, data, spared);
    w2, restore := EmptyRestore(tools, j, db, load, spared);
  }
}
