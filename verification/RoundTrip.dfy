/**
 What runs of `RunBackup` and `RunRestore` achieve: the order of their actions, and that a restore brings
 every dumped database back to what it was when the backup started.
 */
module RoundTrip {
  import opened Wrappers
  import opened ResticOptions
  import opened Jobs
  import opened Tasks
  import opened Pipeline

  // ----- Order and fail-fast -----------------------------------------------------------------------

  predicate IsBackup(a: Action) { a.ResticBackup? }

  predicate IsForget(a: Action) { a.ResticForget? }

  lemma PlanActions(j: Job)
    ensures forall a :: a in BackupHead(j) ==> !IsBackup(a) && !IsForget(a)
    ensures forall a :: a in BackupTail(j) ==> IsScript(a)
    ensures forall a :: a in ForgetPlan(j) ==> IsForget(a)
  {
    NestedOnBackup(j.tasks, BackupPaths(j));
  }

  /**
   From position `n` on the run follows `head` and then `backup`: only that action is a backup, it comes
   after all of `head` has succeeded, a good run includes it, and forgetting comes last, after it succeeded.
   */
  ghost predicate InOrder(head: seq<Action>, backup: Action, n: nat, ran: seq<Event>, ok: bool) {
    var b := n + |head|;
    && (forall i :: 0 <= i < |ran| ==> (IsBackup(ran[i].action) <==> i == b))
    && (b < |ran| ==>
          && ran[b].action == backup
          && forall k :: 0 <= k < |head| ==> ran[n + k].action == head[k] && ran[n + k].status.Done?)
    && (ok ==> b < |ran| && ran[b].status.Done?)
    && forall i :: 0 <= i < |ran| && IsForget(ran[i].action) ==> b < i == |ran| - 1 && ran[b].status.Done?
  }

  /** The order of a run whose plan is some head, one backup, some tail and at most one forget. */
  lemma SnapshotOrder(head: seq<Action>, backup: Action, tail: seq<Action>, forget: seq<Action>, ran: seq<Event>, ok: bool)
    requires Executes(head + [backup] + tail + forget, ran, ok)
    requires forall a :: a in head ==> !IsBackup(a) && !IsForget(a)
    requires forall a :: a in tail ==> !IsBackup(a) && !IsForget(a)
    requires IsBackup(backup) && |forget| <= 1 && forall a :: a in forget ==> IsForget(a)
    ensures InOrder(head, backup, 0, ran, ok)
  {
    var plan := head + [backup] + tail + forget;
    forall i | 0 <= i < |plan|
      ensures i < |head| ==> plan[i] == head[i] && plan[i] in head
      ensures i == |head| ==> plan[i] == backup
      ensures |head| < i <= |head| + |tail| ==> plan[i] in tail
      ensures |head| + |tail| < i ==> i == |plan| - 1 && plan[i] in forget
    {
      if |head| < i <= |head| + |tail| {
        assert plan[i] == tail[i - |head| - 1];
      }
    }
    assert forall i :: 0 <= i < |ran| ==> ran[i].action == plan[i];
  }

  /** The same order counted from the start of the run. */
  lemma OrderShift(head: seq<Action>, backup: Action, n: nat, ran: seq<Event>, ok: bool)
    requires n <= |ran| && InOrder(head, backup, 0, ran[n..], ok)
    requires forall i :: 0 <= i < n ==> !IsBackup(ran[i].action) && !IsForget(ran[i].action)
    ensures InOrder(head, backup, n, ran, ok)
  {
    var rest, b := ran[n..], n + |head|;
    if b < |ran| {
      assert ran[b] == rest[|head|];
    }
    forall i | 0 <= i < |ran|
      ensures IsBackup(ran[i].action) <==> i == b
      ensures IsForget(ran[i].action) ==> b < i == |ran| - 1 && ran[b].status.Done?
    {
      if n <= i {
        assert ran[i] == rest[i - n];
      }
    }
    forall k | 0 <= k < |head| && b < |ran| ensures ran[n + k].action == head[k] && ran[n + k].status.Done? {
      assert rest[k] == ran[n + k];
    }
  }

  /**
   Fail-fast order of a backup run, whatever failed: restic is asked for a snapshot only once, of all
   the backup paths, after every dump and every pre script has succeeded; forgetting comes last, after
   a successful snapshot.
   */
  lemma OneSnapshotInOrder(j: Job, ran: seq<Event>, ok: bool)
    requires BackupRun(j, ran, ok)
    ensures InOrder(BackupHead(j), TheBackup(j), InitLength(ran), ran, ok)
    ensures BackupOutcome(j, ran, ok)
  {
    OutcomeOf(j, ran, ok);
    InOrderOf(j, ran, ok);
  }

  lemma InOrderOf(j: Job, ran: seq<Event>, ok: bool)
    requires BackupRun(j, ran, ok)
    ensures InOrder(BackupHead(j), TheBackup(j), InitLength(ran), ran, ok)
  {
    var n, head, backup := InitLength(ran), BackupHead(j), TheBackup(j);
    if n == 2 && !ran[1].status.Done? {
      assert forall i :: 0 <= i < |ran| ==> !IsBackup(ran[i].action) && !IsForget(ran[i].action);
    } else {
      PlanActions(j);
      SnapshotOrder(head, backup, BackupTail(j), ForgetPlan(j), ran[n..], ok);
      OrderShift(head, backup, n, ran, ok);
    }
  }

  /** A run that fails although every task has succeeded fails because the job's forget, its last event, does. */
  lemma FailedForget(j: Job, ran: seq<Event>)
    requires BackupRun(j, ran, false)
    requires var n, tasks := InitLength(ran), |BackupPlan(j)|;
             n + tasks <= |ran| && forall i :: n <= i < n + tasks ==> ran[i].status.Done?
    ensures j.forget.Some? && |ran| == InitLength(ran) + |BackupPlan(j)| + 1
    ensures ran[|ran| - 1].action == ResticForget(j.forget.value) && !ran[|ran| - 1].status.Done?
  {
    var n, plan := InitLength(ran), BackupPlan(j);
    FailsAfter(plan, ForgetPlan(j), ran[n..]);
    assert ran[n..][|ran| - n - 1] == ran[|ran| - 1];
  }

  lemma FailsAfter(plan: seq<Action>, forget: seq<Action>, ran: seq<Event>)
    requires Executes(plan + forget, ran, false) && |forget| <= 1 && |plan| <= |ran|
    requires forall i :: 0 <= i < |plan| ==> ran[i].status.Done?
    ensures |forget| == 1 && |ran| == |plan| + 1 && ran[|plan|].action == forget[0] && !ran[|plan|].status.Done?
  {
  }

  predicate ActsBefore(t: ExecutableTask) { t.ScriptTask? && !t.onRestore.Load? }

  predicate ActsAfter(t: ExecutableTask) { t.ScriptTask? && !t.onBackup.Dump? }

  /** Only the task at `b` is a backup task; every dump stands before it and every load after it. */
  ghost predicate DumpsThenLoads(tasks: seq<ExecutableTask>, b: nat) {
    && b < |tasks| && tasks[b].BackupTask?
    && (forall i :: 0 <= i < b ==> ActsBefore(tasks[i]))
    && forall i :: b < i < |tasks| ==> ActsAfter(tasks[i])
  }

  /** The job's task list is in that order, and holds the dump and the load of each of its own blocks. */
  lemma DumpsBeforeLoadsAfter(j: Job)
    ensures DumpsThenLoads(TaskList(j), |Databases(j)| + |AllPre(j.tasks)|)
    ensures forall db :: db in Databases(j) ==> GetPreTask(db) in TaskList(j) && GetPostTask(db) in TaskList(j)
  {
    var own, before, after := Databases(j), AllPre(j.tasks), AllPost(j.tasks);
    NestedTaskKinds(j.tasks);
    OrderedList(PreTasks(own), before, BackupTask(j.backup), after, PostTasks(own));
    forall db | db in own ensures GetPreTask(db) in TaskList(j) && GetPostTask(db) in TaskList(j) {
      var i :| 0 <= i < |own| && own[i] == db;
      assert PreTasks(own)[i] == GetPreTask(db) && PostTasks(own)[i] == GetPostTask(db);
    }
  }

  lemma OrderedList(dumps: seq<ExecutableTask>, before: seq<ExecutableTask>, backup: ExecutableTask,
                    after: seq<ExecutableTask>, loads: seq<ExecutableTask>)
    requires backup.BackupTask?
    requires forall i :: 0 <= i < |dumps| ==> ActsBefore(dumps[i])
    requires forall i :: 0 <= i < |before| ==> ActsBefore(before[i])
    requires forall i :: 0 <= i < |after| ==> ActsAfter(after[i])
    requires forall i :: 0 <= i < |loads| ==> ActsAfter(loads[i])
    ensures DumpsThenLoads(dumps + before + [backup] + after + loads, |dumps| + |before|)
    ensures forall t :: t in dumps || t in loads ==> t in dumps + before + [backup] + after + loads
  {
    var list, b := dumps + before + [backup] + after + loads, |dumps| + |before|;
    assert list == dumps + (before + [backup] + after + loads);
    forall i | 0 <= i < |list|
      ensures i < b ==> ActsBefore(list[i])
      ensures b < i ==> ActsAfter(list[i])
    {
      if |dumps| <= i < b {
        assert list[i] == before[i - |dumps|];
      } else if b < i <= b + |after| {
        assert list[i] == after[i - b - 1];
      } else if b + |after| < i {
        assert list[i] == loads[i - b - 1 - |after|];
      }
    }
  }

  lemma {:induction false} NestedTaskKinds(tasks: seq<JobTask>)
    ensures forall i :: 0 <= i < |AllPre(tasks)| ==> ActsBefore(AllPre(tasks)[i])
    ensures forall i :: 0 <= i < |AllPost(tasks)| ==> ActsAfter(AllPost(tasks)[i])
    decreases |tasks|
  {
    if tasks != [] {
      NestedTaskKinds(tasks[..|tasks| - 1]);
      TaskKinds(tasks[|tasks| - 1]);
    }
  }

  lemma TaskKinds(t: JobTask)
    ensures forall i :: 0 <= i < |TaskPre(t)| ==> ActsBefore(TaskPre(t)[i])
    ensures forall i :: 0 <= i < |TaskPost(t)| ==> ActsAfter(TaskPost(t)[i])
  {
  }

  // ----- Following one cell through a run ----------------------------------------------------------

  /** Every event leaves `c` alone from position `lo` up to position `hi`. */
  ghost predicate Untouched(ran: seq<Event>, lo: int, hi: int, c: Cell) {
    forall k :: 0 <= lo <= k < hi <= |ran| ==> SameAt(c, ran[k].before, ran[k].after)
  }

  /** The world before event `i`; past the end, the world the run ended in. */
  ghost function WorldAt(ran: seq<Event>, i: nat, end: World): World {
    if i < |ran| then ran[i].before else end
  }

  lemma NextWorld(w: World, ran: seq<Event>, end: World, i: nat)
    requires Chained(w, ran, end) && i < |ran|
    ensures ran[i].after == WorldAt(ran, i + 1, end)
  {
    assert Linked(ran, i);
  }

  lemma {:induction false} CarriedOver(w: World, ran: seq<Event>, end: World, lo: nat, hi: nat, c: Cell)
    requires Chained(w, ran, end) && lo <= hi <= |ran| && Untouched(ran, lo, hi, c)
    ensures SameAt(c, WorldAt(ran, lo, end), WorldAt(ran, hi, end))
    decreases hi - lo
  {
    if lo < hi {
      CarriedOver(w, ran, end, lo, hi - 1, c);
      assert SameAt(c, ran[hi - 1].before, ran[hi - 1].after);
      NextWorld(w, ran, end, hi - 1);
    }
  }

  lemma {:induction false} RepoCarriedOver(w: World, ran: seq<Event>, end: World, lo: nat, hi: nat)
    requires Chained(w, ran, end) && lo <= hi <= |ran|
    requires forall k :: lo <= k < hi ==> KeepsNewest(ran[k])
    ensures KeepsNewest(Event(ResticSnapshots, Done, WorldAt(ran, lo, end), WorldAt(ran, hi, end)))
    decreases hi - lo
  {
    if lo < hi {
      RepoCarriedOver(w, ran, end, lo, hi - 1);
      assert KeepsNewest(ran[hi - 1]);
      NextWorld(w, ran, end, hi - 1);
    }
  }

  // ----- The round trip of one database ------------------------------------------------------------

  /** The newest snapshot holds `data` for the file at `path`. */
  ghost predicate Saved(w: World, path: string, data: string) {
    && w.repo.Some? && |w.repo.value| > 0
    && var newest := w.repo.value[|w.repo.value| - 1];
       File(path) in newest && newest[File(path)] == data
  }

  /** A dump followed by the backup puts the dump into the newest snapshot, where it stays. */
  lemma SavedByBackup(tools: Tools, w: World, ran: seq<Event>, end: World, d: nat, b: nat, source: Cell, path: string)
    requires Chained(w, ran, end) && forall k :: d <= k < |ran| ==> Lawful(tools, ran[k]) && ran[k].status.Done?
    requires d < b < |ran|
    requires ran[d].action == Shell(Dump(source, path)) && source in ran[d].before.cells
    requires Untouched(ran, d + 1, b, File(path))
    requires ran[b].action.ResticBackup? && TakesAll(ran[b].action.backupOpts)
    requires exists p :: p in ran[b].action.paths && Under(p, path)
    requires forall k :: b < k < |ran| ==> KeepsNewest(ran[k])
    ensures Saved(end, path, tools.dump(source, ran[d].before.cells[source]))
  {
    CarriedOver(w, ran, end, d + 1, b, File(path));
    NextWorld(w, ran, end, d);
    assert Saved(ran[b].after, path, tools.dump(source, ran[d].before.cells[source]));
    NextWorld(w, ran, end, b);
    RepoCarriedOver(w, ran, end, b + 1, |ran|);
  }

  /** Restoring the newest snapshot in place and then loading brings the source back. */
  lemma LoadedByRestore(tools: Tools, w: World, ran: seq<Event>, end: World, r: nat, l: nat,
                        source: Cell, path: string, data: string)
    requires LoadUndoesDump(tools)
    requires Chained(w, ran, end) && forall k :: r <= k < |ran| ==> Lawful(tools, ran[k]) && ran[k].status.Done?
    requires r < l < |ran|
    requires Saved(w, path, tools.dump(source, data))
    requires forall k :: 0 <= k < r ==> KeepsNewest(ran[k])
    requires ran[r].action.ResticRestore? && ran[r].action.snapshot == "latest" && InPlace(ran[r].action.restoreOpts)
    requires Untouched(ran, r + 1, l, File(path))
    requires ran[l].action == Shell(Load(path, source))
    requires Untouched(ran, l + 1, |ran|, source)
    ensures source in end.cells && end.cells[source] == data
  {
    RepoCarriedOver(w, ran, end, 0, r);
    assert Saved(ran[r].before, path, tools.dump(source, data));
    NextWorld(w, ran, end, r);
    CarriedOver(w, ran, end, r + 1, l, File(path));
    NextWorld(w, ran, end, l);
    CarriedOver(w, ran, end, l + 1, |ran|, source);
  }

  // ----- Independence ------------------------------------------------------------------------------

  /** Neither block writes what the other one needs. */
  ghost predicate Apart(a: Database, b: Database) {
    && DumpPath(a) != DumpPath(b)
    && !Overlap(Source(a), Source(b)) && !Overlap(Source(b), Source(a))
    && StaysOff(a, b) && StaysOff(b, a)
  }

  /** Neither the source nor the dump file of `a` is the dump file of `b`. */
  ghost predicate StaysOff(a: Database, b: Database) {
    DumpPath(a) != DumpPath(b) && !Overlap(Source(a), File(DumpPath(b)))
  }

  /** The source of `a` is not its own dump file. */
  ghost predicate DumpsElsewhere(a: Database) { !Overlap(Source(a), File(DumpPath(a))) }

  /** Own blocks are pairwise apart, and nested blocks stay off their dump files. */
  ghost predicate IndependentBlocks(own: seq<Database>, nested: seq<Database>) {
    && (forall i {:trigger DumpsElsewhere(own[i])} :: 0 <= i < |own| ==> DumpsElsewhere(own[i]))
    && (forall i, k {:trigger Apart(own[i], own[k])} :: 0 <= i < k < |own| ==> Apart(own[i], own[k]))
    && forall i, n {:trigger StaysOff(n, own[i])} :: 0 <= i < |own| && n in nested ==> StaysOff(n, own[i])
  }

  ghost predicate Independent(j: Job) { IndependentBlocks(Databases(j), NestedDatabases(j.tasks)) }

  /** User scripts leave the repository and these cells alone. */
  ghost predicate ScriptsSpare(ran: seq<Event>, cells: set<Cell>) {
    forall e {:trigger IsScript(e.action)} :: e in ran && IsScript(e.action) ==>
      e.after.repo == e.before.repo && forall c :: c in cells ==> SameAt(c, e.before, e.after)
  }

  /** The dump files of the job's own databases. */
  ghost function DumpFiles(j: Job): set<Cell> { set db | db in Databases(j) :: File(DumpPath(db)) }

  ghost predicate AllLawful(tools: Tools, ran: seq<Event>) {
    forall e {:trigger Lawful(tools, e)} :: e in ran ==> Lawful(tools, e)
  }

  /** What one backup run is assumed to meet: lawful answers and a forget that keeps the newest snapshot. */
  ghost predicate FairBackup(tools: Tools, j: Job, ran: seq<Event>, spared: set<Cell>) {
    && AllLawful(tools, ran)
    && (forall e :: e in ran && IsForget(e.action) ==> KeepsNewest(e))
    && ScriptsSpare(ran, spared)
    && (j.backup.backupOpts.Some? ==> TakesAll(j.backup.backupOpts.value))
  }

  /** What one restore run is assumed to meet: lawful answers and an in-place restore. */
  ghost predicate FairRestore(tools: Tools, j: Job, ran: seq<Event>, spared: set<Cell>) {
    && AllLawful(tools, ran)
    && ScriptsSpare(ran, spared)
    && j.backup.restoreOpts.Some? && InPlace(j.backup.restoreOpts.value)
  }

  lemma OverlapReflexive(c: Cell)
    ensures Overlap(c, c)
  {
    match c
    case File(_) =>
    case MySQLData(_, _, database, tables) => SharesReflexive(database, tables);
    case PostgresData(_, _, database, tables) => SharesReflexive(database, tables);
  }

  lemma SharesReflexive(database: string, tables: seq<string>)
    ensures SharesData(database, tables, database, tables)
  {
    if tables != [] {
      assert tables[0] in tables;
    }
  }

  /** A dump leaves alone what it does not write. */
  lemma DumpLeaves(tools: Tools, e: Event, db: Database, c: Cell)
    requires Lawful(tools, e) && e.status.Done? && e.action == DumpOf(db)
    requires c != File(DumpPath(db)) && !Overlap(Source(db), c)
    ensures SameAt(c, e.before, e.after)
  {
    OverlapReflexive(c);
  }

  /** A load leaves alone what it does not write. */
  lemma LoadLeaves(tools: Tools, e: Event, db: Database, c: Cell)
    requires Lawful(tools, e) && e.status.Done? && e.action == LoadOf(db) && !Overlap(Source(db), c)
    ensures SameAt(c, e.before, e.after)
  {
  }

  // ----- The backup half ---------------------------------------------------------------------------

  /** A step of `EnsureInit` in a run that went on. */
  predicate IsInitial(e: Event) { e.action.ResticSnapshots? || (e.action.ResticInit? && e.status.Done?) }

  /** A successful backup run: `own` dumps from `n`, nested dumps and scripts, the backup at `b`, scripts and forget. */
  ghost predicate BackupShape(ran: seq<Event>, n: nat, b: nat, own: seq<Database>, nested: seq<Database>) {
    && n + |own| <= b < |ran|
    && (forall k :: 0 <= k < n ==> IsInitial(ran[k]))
    && (forall k :: n <= k < |ran| ==> ran[k].status.Done?)
    && (forall k :: n <= k < n + |own| ==> ran[k].action == DumpOf(own[k - n]))
    && (forall k :: n + |own| <= k < b ==> IsScript(ran[k].action) || IsDumpOf(ran[k].action, nested))
    && IsBackup(ran[b].action)
    && (forall k :: b < k < |ran| ==> IsScript(ran[k].action) || IsForget(ran[k].action))
  }

  /** What stands where in five sequences joined. */
  lemma JoinedAt<T>(a: seq<T>, b: seq<T>, c: T, d: seq<T>, e: seq<T>, k: nat)
    requires k < |a| + |b| + 1 + |d| + |e|
    ensures var all, m := a + b + [c] + d + e, |a| + |b|;
            && (k < |a| ==> all[k] == a[k])
            && (|a| <= k < m ==> all[k] in b)
            && (k == m ==> all[k] == c)
            && (m < k <= m + |d| ==> all[k] in d)
            && (m + |d| < k ==> all[k] in e)
  {
    var all, m := a + b + [c] + d + e, |a| + |b|;
    if |a| <= k < m {
      assert all[k] == b[k - |a|];
    } else if m < k <= m + |d| {
      assert all[k] == d[k - m - 1];
    } else if m + |d| < k {
      assert all[k] == e[k - m - 1 - |d|];
    }
  }

  /** Positions in a plan of own dumps, more actions, a backup, a tail and a forget. */
  lemma ShapeOfPlan(plan: seq<Action>, own: seq<Database>, nested: seq<Database>, dumps: seq<Action>, pre: seq<Action>,
                    backup: Action, tail: seq<Action>, forget: seq<Action>, ran: seq<Event>)
    requires plan == dumps + pre + [backup] + tail + forget && AllDone(plan, ran) && IsBackup(backup)
    requires |dumps| == |own| && forall i :: 0 <= i < |own| ==> dumps[i] == DumpOf(own[i])
    requires forall a :: a in pre ==> IsScript(a) || IsDumpOf(a, nested)
    requires forall a :: a in tail ==> IsScript(a)
    requires forall a :: a in forget ==> IsForget(a)
    ensures BackupShape(ran, 0, |own| + |pre|, own, nested)
    ensures ran[|own| + |pre|].action == backup
  {
    var b := |own| + |pre|;
    forall k | 0 <= k < |ran|
      ensures ran[k].status.Done?
      ensures k < |own| ==> ran[k].action == DumpOf(own[k])
      ensures |own| <= k < b ==> IsScript(ran[k].action) || IsDumpOf(ran[k].action, nested)
      ensures k == b ==> ran[k].action == backup
      ensures b < k ==> IsScript(ran[k].action) || IsForget(ran[k].action)
    {
      JoinedAt(dumps, pre, backup, tail, forget, k);
      assert ran[k].action == plan[k];
    }
  }

  lemma ShapeShift(ran: seq<Event>, n: nat, b: nat, own: seq<Database>, nested: seq<Database>)
    requires n <= |ran| && BackupShape(ran[n..], 0, b, own, nested)
    requires forall k :: 0 <= k < n ==> IsInitial(ran[k])
    ensures BackupShape(ran, n, n + b, own, nested) && ran[n + b] == ran[n..][b]
  {
    var rest := ran[n..];
    assert forall k :: n <= k < |ran| ==> ran[k] == rest[k - n];
  }

  lemma ShapeOfBackup(j: Job, ran: seq<Event>)
    requires BackupRun(j, ran, true)
    ensures exists b: nat ::
              BackupShape(ran, InitLength(ran), b, Databases(j), NestedDatabases(j.tasks)) && ran[b].action == TheBackup(j)
  {
    var own, nested, pre := Databases(j), NestedDatabases(j.tasks), BackupActions(AllPre(j.tasks), BackupPaths(j));
    var n := InitLength(ran);
    var plan := BackupPlan(j) + ForgetPlan(j);
    assert plan == DumpActions(own) + pre + [TheBackup(j)] + BackupTail(j) + ForgetPlan(j);
    BackupDone(j, ran);
    NestedOnBackup(j.tasks, BackupPaths(j));
    ShapeOfPlan(plan, own, nested, DumpActions(own), pre, TheBackup(j), BackupTail(j), ForgetPlan(j), ran[n..]);
    ShapeShift(ran, n, |own| + |pre|, own, nested);
  }

  lemma BackupDone(j: Job, ran: seq<Event>)
    requires BackupRun(j, ran, true)
    ensures InitLength(ran) <= |ran| && AllDone(BackupPlan(j) + ForgetPlan(j), ran[InitLength(ran)..])
    ensures forall k :: 0 <= k < InitLength(ran) ==> IsInitial(ran[k])
    ensures forall a :: a in ForgetPlan(j) ==> IsForget(a)
  {
  }

  /** The dumps before the d-th one, and `EnsureInit`, leave its source alone. */
  lemma EarlierDumpsLeave(tools: Tools, ran: seq<Event>, n: nat, b: nat, own: seq<Database>, nested: seq<Database>, d: nat)
    requires BackupShape(ran, n, b, own, nested) && AllLawful(tools, ran)
    requires IndependentBlocks(own, nested) && d < |own|
    ensures Untouched(ran, 0, n + d, Source(own[d]))
  {
    forall k | 0 <= k < n + d ensures SameAt(Source(own[d]), ran[k].before, ran[k].after) {
      assert ran[k] in ran && Lawful(tools, ran[k]);
      if n <= k {
        assert Apart(own[k - n], own[d]);
        OverlapReflexive(Source(own[d]));
        DumpLeaves(tools, ran[k], own[k - n], Source(own[d]));
      }
    }
  }

  /** From its dump to the backup nothing writes the d-th dump file. */
  lemma DumpFileWaits(tools: Tools, ran: seq<Event>, n: nat, b: nat, own: seq<Database>, nested: seq<Database>, d: nat)
    requires BackupShape(ran, n, b, own, nested) && AllLawful(tools, ran)
    requires IndependentBlocks(own, nested) && d < |own|
    requires ScriptsSpare(ran, {File(DumpPath(own[d]))})
    ensures Untouched(ran, n + d + 1, b, File(DumpPath(own[d])))
  {
    var file := File(DumpPath(own[d]));
    forall k | n + d < k < b ensures SameAt(file, ran[k].before, ran[k].after) {
      assert ran[k] in ran && Lawful(tools, ran[k]);
      if k < n + |own| {
        assert Apart(own[d], own[k - n]);
        DumpLeaves(tools, ran[k], own[k - n], file);
      } else if !IsScript(ran[k].action) {
        var db :| db in nested && ran[k].action == DumpOf(db);
        assert StaysOff(db, own[d]);
        DumpLeaves(tools, ran[k], db, file);
      }
    }
  }

  lemma SpareOne(ran: seq<Event>, cells: set<Cell>, c: Cell)
    requires ScriptsSpare(ran, cells) && c in cells
    ensures ScriptsSpare(ran, {c})
  {
  }

  /** After the backup the newest snapshot stays. */
  lemma SnapshotStays(ran: seq<Event>, n: nat, b: nat, own: seq<Database>, nested: seq<Database>, spared: set<Cell>)
    requires BackupShape(ran, n, b, own, nested) && ScriptsSpare(ran, spared)
    requires forall e :: e in ran && IsForget(e.action) ==> KeepsNewest(e)
    ensures forall k :: b < k < |ran| ==> KeepsNewest(ran[k])
  {
    forall k | b < k < |ran| ensures KeepsNewest(ran[k]) {
      assert ran[k] in ran;
    }
  }

  /** A successful backup leaves every own database's content, as it was at the start, in the newest snapshot. */
  lemma BlockSaved(tools: Tools, j: Job, w: World, ran: seq<Event>, end: World, d: nat)
    requires BackupRun(j, ran, true) && Chained(w, ran, end) && FairBackup(tools, j, ran, DumpFiles(j))
    requires Independent(j) && d < |Databases(j)| && Source(Databases(j)[d]) in w.cells
    ensures var db := Databases(j)[d];
            Saved(end, DumpPath(db), tools.dump(Source(db), w.cells[Source(db)]))
  {
    var own, nested := Databases(j), NestedDatabases(j.tasks);
    var db := own[d];
    ShapeOfBackup(j, ran);
    var n := InitLength(ran);
    var b: nat :| BackupShape(ran, n, b, own, nested) && ran[b].action == TheBackup(j);
    EarlierDumpsLeave(tools, ran, n, b, own, nested, d);
    CarriedOver(w, ran, end, 0, n + d, Source(db));
    SpareOne(ran, DumpFiles(j), File(DumpPath(db)));
    DumpFileWaits(tools, ran, n, b, own, nested, d);
    SnapshotStays(ran, n, b, own, nested, DumpFiles(j));
    OwnDumpCovered(j, d);
    LawfulFrom(tools, ran);
    SavedByBackup(tools, w, ran, end, n + d, b, Source(db), DumpPath(db));
  }

  /**
   A successful backup leaves the content of every MySQL, Postgres and Sqlite block of the job, dumped as of
   the start, in the newest snapshot under the block's dump path.
   */
  lemma BackupSaves(tools: Tools, j: Job, w: World, ran: seq<Event>, end: World)
    requires BackupRun(j, ran, true) && Chained(w, ran, end) && FairBackup(tools, j, ran, DumpFiles(j)) && Independent(j)
    ensures OverOwnBlocks(j, (cell, path) => cell in w.cells ==> Saved(end, path, tools.dump(cell, w.cells[cell])))
  {
    var p := (cell: Cell, path: string) => cell in w.cells ==> Saved(end, path, tools.dump(cell, w.cells[cell]));
    forall d | 0 <= d < |Databases(j)| ensures p(Source(Databases(j)[d]), DumpPath(Databases(j)[d])) {
      if Source(Databases(j)[d]) in w.cells {
        BlockSaved(tools, j, w, ran, end, d);
      }
    }
    OverDatabases(j, p);
  }

  /** `p` holds of the data and the dump file of each of the job's own blocks. */
  ghost predicate OverOwnBlocks(j: Job, p: (Cell, string) -> bool) {
    && (forall t :: t in j.mysql ==> p(MySQLData(t.hostname, t.port, t.database, t.tables), t.dumpToPath))
    && (forall t :: t in j.postgres ==> p(PostgresData(t.hostname, t.port, t.database, t.tables), t.dumpToPath))
    && (forall t :: t in j.sqlite ==> p(File(t.path), t.dumpToPath))
  }

  lemma OverDatabases(j: Job, p: (Cell, string) -> bool)
    requires forall d :: 0 <= d < |Databases(j)| ==> p(Source(Databases(j)[d]), DumpPath(Databases(j)[d]))
    ensures OverOwnBlocks(j, p)
  {
    var dbs := Databases(j);
    forall t | t in j.mysql ensures p(MySQLData(t.hostname, t.port, t.database, t.tables), t.dumpToPath) {
      var i :| 0 <= i < |j.mysql| && j.mysql[i] == t;
      assert dbs[i] == OfMySQL(t);
    }
    forall t | t in j.postgres ensures p(PostgresData(t.hostname, t.port, t.database, t.tables), t.dumpToPath) {
      var i :| 0 <= i < |j.postgres| && j.postgres[i] == t;
      assert dbs[|j.mysql| + i] == OfPostgres(t);
    }
    forall t | t in j.sqlite ensures p(File(t.path), t.dumpToPath) {
      var i :| 0 <= i < |j.sqlite| && j.sqlite[i] == t;
      assert dbs[|j.mysql| + |j.postgres| + i] == OfSqlite(t);
    }
  }

  lemma LawfulFrom(tools: Tools, ran: seq<Event>)
    requires AllLawful(tools, ran)
    ensures forall k :: 0 <= k < |ran| ==> Lawful(tools, ran[k])
  {
    forall k | 0 <= k < |ran| ensures Lawful(tools, ran[k]) {
      assert ran[k] in ran && Lawful(tools, ran[k]);
    }
  }

  lemma OwnDumpCovered(j: Job, d: nat)
    requires d < |Databases(j)|
    ensures exists p :: p in TheBackup(j).paths && Under(p, DumpPath(Databases(j)[d]))
  {
    var path := DumpPath(Databases(j)[d]);
    assert BackupPaths(j)[|j.backup.paths| + d] == path;
    assert path in TheBackup(j).paths && Under(path, path);
  }

  // ----- The restore half --------------------------------------------------------------------------

  /** A successful restore run: scripts, the restore at `r`, scripts and nested loads, own loads from `l`. */
  ghost predicate RestoreShape(ran: seq<Event>, r: nat, l: nat, own: seq<Database>, nested: seq<Database>) {
    && 0 < r < l && |ran| == l + |own|
    && ran[0].action.ResticSnapshots?
    && (forall k :: 1 <= k < |ran| ==> ran[k].status.Done?)
    && (forall k :: 1 <= k < r ==> IsScript(ran[k].action))
    && ran[r].action.ResticRestore?
    && (forall k :: r < k < l ==> IsScript(ran[k].action) || IsLoadOf(ran[k].action, nested))
    && (forall k :: l <= k < |ran| ==> ran[k].action == LoadOf(own[k - l]))
  }

  lemma ShapeOfRestorePlan(plan: seq<Action>, head: seq<Action>, restore: Action, middle: seq<Action>, loads: seq<Action>,
                           own: seq<Database>, nested: seq<Database>, ran: seq<Event>)
    requires ran != [] && plan == head + [restore] + (middle + loads) && AllDone(plan, ran[1..])
    requires |loads| == |own| && forall i :: 0 <= i < |own| ==> loads[i] == LoadOf(own[i])
    requires ran[0].action.ResticSnapshots? && restore.ResticRestore?
    requires forall a :: a in head ==> IsScript(a)
    requires forall a :: a in middle ==> IsScript(a) || IsLoadOf(a, nested)
    ensures var r := 1 + |head|; RestoreShape(ran, r, r + 1 + |middle|, own, nested) && ran[r].action == restore
  {
    var rest, r := ran[1..], 1 + |head|;
    forall k | 1 <= k < |ran|
      ensures ran[k].status.Done?
      ensures k < r ==> ran[k].action in head
      ensures k == r ==> ran[k].action == restore
      ensures r < k <= r + |middle| ==> ran[k].action in middle
      ensures r + |middle| < k ==> ran[k].action == LoadOf(own[k - r - 1 - |middle|])
    {
      assert ran[k] == rest[k - 1];
      if k < r {
        assert plan[k - 1] == head[k - 1];
      } else if r < k <= r + |middle| {
        assert plan[k - 1] == middle[k - r - 1];
      } else if r < k {
        assert plan[k - 1] == loads[k - r - 1 - |middle|];
      }
    }
  }

  /** Where the restore stands in a run. */
  function RestoreAt(j: Job, snapshot: string): nat { 1 + |RestoreHead(j, snapshot)| }

  /** Where the restore and the first own load stand in a successful run. */
  lemma ShapeOfRestore(j: Job, snapshot: string, ran: seq<Event>)
    requires RestoreRun(j, snapshot, ran, true)
    ensures exists l: nat ::
              RestoreShape(ran, RestoreAt(j, snapshot), l, Databases(j), NestedDatabases(j.tasks))
              && ran[RestoreAt(j, snapshot)].action == TheRestore(j, snapshot)
  {
    var plan, head, middle := RestorePlan(j, snapshot), RestoreHead(j, snapshot), RestoreActions(AllPost(j.tasks), snapshot);
    var own, nested := Databases(j), NestedDatabases(j.tasks);
    assert plan == head + [TheRestore(j, snapshot)] + (middle + LoadActions(own));
    RestoreDone(j, snapshot, ran);
    NestedOnRestore(j.tasks, snapshot);
    assert RestoreAt(j, snapshot) == 1 + |head|;
    ShapeOfRestorePlan(plan, head, TheRestore(j, snapshot), middle, LoadActions(own), own, nested, ran);
  }

  lemma RestoreDone(j: Job, snapshot: string, ran: seq<Event>)
    requires RestoreRun(j, snapshot, ran, true)
    ensures ran != [] && ran[0].action.ResticSnapshots? && AllDone(RestorePlan(j, snapshot), ran[1..])
  {
  }

  /** Up to the restore nothing changes the repository. */
  lemma BeforeRestore(tools: Tools, ran: seq<Event>, r: nat, l: nat, own: seq<Database>, nested: seq<Database>, spared: set<Cell>)
    requires RestoreShape(ran, r, l, own, nested) && AllLawful(tools, ran) && ScriptsSpare(ran, spared)
    ensures forall k :: 0 <= k < r ==> KeepsNewest(ran[k])
  {
    forall k | 0 <= k < r ensures KeepsNewest(ran[k]) {
      assert ran[k] in ran && Lawful(tools, ran[k]);
    }
  }

  /** From the restore to its load nothing writes the d-th dump file. */
  lemma DumpFileReady(tools: Tools, ran: seq<Event>, r: nat, l: nat, own: seq<Database>, nested: seq<Database>, d: nat)
    requires RestoreShape(ran, r, l, own, nested) && AllLawful(tools, ran)
    requires IndependentBlocks(own, nested) && d < |own|
    requires ScriptsSpare(ran, {File(DumpPath(own[d]))})
    ensures Untouched(ran, r + 1, l + d, File(DumpPath(own[d])))
  {
    var file := File(DumpPath(own[d]));
    forall k | r < k < l + d ensures SameAt(file, ran[k].before, ran[k].after) {
      assert ran[k] in ran && Lawful(tools, ran[k]);
      if k >= l {
        assert Apart(own[k - l], own[d]);
        LoadLeaves(tools, ran[k], own[k - l], file);
      } else if !IsScript(ran[k].action) {
        var db :| db in nested && ran[k].action == LoadOf(db);
        assert StaysOff(db, own[d]);
        LoadLeaves(tools, ran[k], db, file);
      }
    }
  }

  /** The loads after the d-th one leave its source alone. */
  lemma LaterLoadsLeave(tools: Tools, ran: seq<Event>, r: nat, l: nat, own: seq<Database>, nested: seq<Database>, d: nat)
    requires RestoreShape(ran, r, l, own, nested) && AllLawful(tools, ran)
    requires IndependentBlocks(own, nested) && d < |own|
    ensures Untouched(ran, l + d + 1, |ran|, Source(own[d]))
  {
    forall k | l + d < k < |ran| ensures SameAt(Source(own[d]), ran[k].before, ran[k].after) {
      assert ran[k] in ran && Lawful(tools, ran[k]);
      assert Apart(own[d], own[k - l]);
      LoadLeaves(tools, ran[k], own[k - l], Source(own[d]));
    }
  }

  /** A successful restore of the newest snapshot brings the d-th own database to what its saved dump holds. */
  lemma BlockLoaded(tools: Tools, j: Job, snapshot: string, w: World, ran: seq<Event>, end: World, d: nat, data: string)
    requires LoadUndoesDump(tools) && Independent(j) && d < |Databases(j)|
    requires snapshot == "" || snapshot == "latest"
    requires Chained(w, ran, end) && RestoreRun(j, snapshot, ran, true) && FairRestore(tools, j, ran, DumpFiles(j))
    requires var db := Databases(j)[d]; Saved(w, DumpPath(db), tools.dump(Source(db), data))
    ensures var db := Databases(j)[d]; Source(db) in end.cells && end.cells[Source(db)] == data
  {
    var own, nested := Databases(j), NestedDatabases(j.tasks);
    var db := own[d];
    ShapeOfRestore(j, snapshot, ran);
    var r := RestoreAt(j, snapshot);
    var l: nat :| RestoreShape(ran, r, l, own, nested) && ran[r].action == TheRestore(j, snapshot);
    BeforeRestore(tools, ran, r, l, own, nested, DumpFiles(j));
    SpareOne(ran, DumpFiles(j), File(DumpPath(db)));
    DumpFileReady(tools, ran, r, l, own, nested, d);
    LaterLoadsLeave(tools, ran, r, l, own, nested, d);
    LawfulFrom(tools, ran);
    LoadedByRestore(tools, w, ran, end, r, l + d, Source(db), DumpPath(db), data);
  }

  /** A successful restore of the newest snapshot brings every block of the job to what its saved dump holds. */
  lemma RestoreLoads(tools: Tools, j: Job, snapshot: string, w: World, ran: seq<Event>, end: World)
    requires LoadUndoesDump(tools) && Independent(j)
    requires snapshot == "" || snapshot == "latest"
    requires Chained(w, ran, end) && RestoreRun(j, snapshot, ran, true) && FairRestore(tools, j, ran, DumpFiles(j))
    ensures OverOwnBlocks(j, (cell, path) => LoadedFrom(tools, cell, path, w, end))
  {
    var p := (cell: Cell, path: string) => LoadedFrom(tools, cell, path, w, end);
    forall d | 0 <= d < |Databases(j)| ensures p(Source(Databases(j)[d]), DumpPath(Databases(j)[d])) {
      var db := Databases(j)[d];
      forall data | Saved(w, DumpPath(db), tools.dump(Source(db), data))
        ensures Source(db) in end.cells && end.cells[Source(db)] == data
      {
        BlockLoaded(tools, j, snapshot, w, ran, end, d, data);
      }
    }
    OverDatabases(j, p);
  }

  /** If the newest snapshot of `w` holds a dump of `cell`, then `cell` holds what was dumped in `end`. */
  ghost predicate LoadedFrom(tools: Tools, cell: Cell, path: string, w: World, end: World) {
    forall data :: Saved(w, path, tools.dump(cell, data)) ==> cell in end.cells && end.cells[cell] == data
  }

  /** `cell` holds again what it held, if it held anything. */
  ghost predicate Restored(cell: Cell, w: World, w': World) {
    cell in w.cells ==> cell in w'.cells && w'.cells[cell] == w.cells[cell]
  }

  /**
   Backup, loss, restore: after a successful backup from world `w0`, any change to files and databases
   that keeps the repository, and a successful restore of the latest snapshot, every database block of
   the job is back to its content at the start of the backup.
   */
  lemma RestoreUndoesLoss(tools: Tools, j: Job, snapshot: string,
                          w0: World, backup: seq<Event>, w1: World, w2: World, restore: seq<Event>, w3: World)
    requires LoadUndoesDump(tools) && Independent(j)
    requires Chained(w0, backup, w1) && BackupRun(j, backup, true) && FairBackup(tools, j, backup, DumpFiles(j))
    requires w2.repo == w1.repo
    requires snapshot == "" || snapshot == "latest"
    requires Chained(w2, restore, w3) && RestoreRun(j, snapshot, restore, true)
    requires FairRestore(tools, j, restore, DumpFiles(j))
    ensures OverOwnBlocks(j, (cell, _) => Restored(cell, w0, w3))
  {
    var p := (cell: Cell, path: string) => Restored(cell, w0, w3);
    forall d | 0 <= d < |Databases(j)| ensures p(Source(Databases(j)[d]), DumpPath(Databases(j)[d])) {
      var cell := Source(Databases(j)[d]);
      if cell in w0.cells {
        BlockSaved(tools, j, w0, backup, w1, d);
        BlockLoaded(tools, j, snapshot, w2, restore, w3, d, w0.cells[cell]);
      }
    }
    OverDatabases(j, p);
  }

  // ----- What the two runs ask for -----------------------------------------------------------------

  ghost predicate DumpedBefore(ran: seq<Event>, b: nat, cell: Cell, path: string) {
    exists d: nat :: d < b <= |ran| && ran[d].action == Shell(Dump(cell, path)) && ran[d].status.Done?
  }

  ghost predicate LoadedAfter(ran: seq<Event>, r: nat, cell: Cell, path: string) {
    exists l: nat :: r < l < |ran| && ran[l].action == Shell(Load(path, cell)) && ran[l].status.Done?
  }

  /** At `b` the run backed up the configured paths and every dump file, which was written before, with the job's options. */
  ghost predicate BacksUp(j: Job, ran: seq<Event>, b: nat) {
    && b < |ran| && ran[b].status.Done? && ran[b].action.ResticBackup? && AllPaths(ran[b].action.paths, j)
    && (if j.backup.backupOpts.Some? then ran[b].action.backupOpts == j.backup.backupOpts.value
        else ran[b].action.backupOpts == BackupOpts([], [], [], ""))
    && OverOwnBlocks(j, (cell, path) => DumpedBefore(ran, b, cell, path))
  }

  /** At `r` the run restored the snapshot asked for, the latest for no name, and loaded every block after that. */
  ghost predicate RestoresAll(j: Job, snapshot: string, ran: seq<Event>, r: nat) {
    && r < |ran| && ran[r].status.Done? && ran[r].action.ResticRestore?
    && ran[r].action.snapshot == (if snapshot == "" then "latest" else snapshot)
    && (if j.backup.restoreOpts.Some? then ran[r].action.restoreOpts == j.backup.restoreOpts.value
        else ran[r].action.restoreOpts == RestoreOpts([], [], [], [], "", "", false))
    && OverOwnBlocks(j, (cell, path) => LoadedAfter(ran, r, cell, path))
  }

  /** Every successful backup does that. */
  lemma BackupAsks(j: Job, ran: seq<Event>)
    requires BackupRun(j, ran, true)
    ensures exists b: nat :: BacksUp(j, ran, b)
  {
    var n, own, nested := InitLength(ran), Databases(j), NestedDatabases(j.tasks);
    ShapeOfBackup(j, ran);
    var b: nat :| BackupShape(ran, n, b, own, nested) && ran[b].action == TheBackup(j);
    BackupPathsAre(j);
    OwnDumped(j, ran, n, b, own, nested);
    assert BacksUp(j, ran, b);
  }

  lemma OwnDumped(j: Job, ran: seq<Event>, n: nat, b: nat, own: seq<Database>, nested: seq<Database>)
    requires BackupShape(ran, n, b, own, nested) && own == Databases(j)
    ensures OverOwnBlocks(j, (cell, path) => DumpedBefore(ran, b, cell, path))
  {
    var p := (cell: Cell, path: string) => DumpedBefore(ran, b, cell, path);
    forall d | 0 <= d < |own| ensures p(Source(own[d]), DumpPath(own[d])) {
      assert ran[n + d].action == DumpOf(own[d]);
    }
    OverDatabases(j, p);
  }

  /** Every successful restore does that. */
  lemma RestoreAsks(j: Job, snapshot: string, ran: seq<Event>)
    requires RestoreRun(j, snapshot, ran, true)
    ensures RestoresAll(j, snapshot, ran, RestoreAt(j, snapshot))
  {
    var r, own, nested := RestoreAt(j, snapshot), Databases(j), NestedDatabases(j.tasks);
    ShapeOfRestore(j, snapshot, ran);
    var l: nat :| RestoreShape(ran, r, l, own, nested) && ran[r].action == TheRestore(j, snapshot);
    OwnLoaded(j, ran, r, l, own, nested);
  }

  lemma OwnLoaded(j: Job, ran: seq<Event>, r: nat, l: nat, own: seq<Database>, nested: seq<Database>)
    requires RestoreShape(ran, r, l, own, nested) && own == Databases(j)
    ensures OverOwnBlocks(j, (cell, path) => LoadedAfter(ran, r, cell, path))
  {
    var p := (cell: Cell, path: string) => LoadedAfter(ran, r, cell, path);
    forall d | 0 <= d < |own| ensures p(Source(own[d]), DumpPath(own[d])) {
      assert ran[l + d].action == LoadOf(own[d]);
    }
    OverDatabases(j, p);
  }

  /** Every answer the outside world may give is one the two runs above are assumed to meet. */
  ghost predicate FairAnswers(tools: Tools, respond: (nat, Action, World) -> (Status, World), spared: set<Cell>) {
    forall n, a, w ::
      var e := Event(a, respond(n, a, w).0, w, respond(n, a, w).1);
      && Lawful(tools, e)
      && (IsForget(a) ==> KeepsNewest(e))
      && (IsScript(a) ==> e.after.repo == w.repo && forall c :: c in spared ==> SameAt(c, w, e.after))
  }

  lemma FairEvents(tools: Tools, respond: (nat, Action, World) -> (Status, World), log: seq<Event>, spared: set<Cell>)
    requires FairAnswers(tools, respond, spared)
    requires forall i :: 0 <= i < |log| ==> (log[i].status, log[i].after) == respond(i, log[i].action, log[i].before)
    ensures forall e :: e in log ==> Lawful(tools, e) && (IsForget(e.action) ==> KeepsNewest(e))
    ensures ScriptsSpare(log, spared)
  {
    forall e | e in log
      ensures Lawful(tools, e) && (IsForget(e.action) ==> KeepsNewest(e))
      ensures IsScript(e.action) ==>
                e.after.repo == e.before.repo && forall c :: c in spared ==> SameAt(c, e.before, e.after)
    {
      var i :| 0 <= i < |log| && log[i] == e;
      var answer := respond(i, e.action, e.before);
      assert e == Event(e.action, answer.0, e.before, answer.1);
    }
  }

  lemma FairBackupOf(j: Job, tools: Tools, respond: (nat, Action, World) -> (Status, World), log: seq<Event>)
    requires FairAnswers(tools, respond, DumpFiles(j))
    requires j.backup.backupOpts.Some? ==> TakesAll(j.backup.backupOpts.value)
    requires forall i :: 0 <= i < |log| ==> (log[i].status, log[i].after) == respond(i, log[i].action, log[i].before)
    ensures FairBackup(tools, j, log, DumpFiles(j))
  {
    FairEvents(tools, respond, log, DumpFiles(j));
  }

  lemma FairRestoreOf(j: Job, tools: Tools, respond: (nat, Action, World) -> (Status, World), log: seq<Event>)
    requires FairAnswers(tools, respond, DumpFiles(j))
    requires j.backup.restoreOpts.Some? && InPlace(j.backup.restoreOpts.value)
    requires forall i :: 0 <= i < |log| ==> (log[i].status, log[i].after) == respond(i, log[i].action, log[i].before)
    ensures FairRestore(tools, j, log, DumpFiles(j))
  {
    FairEvents(tools, respond, log, DumpFiles(j));
  }

  /** `RunBackup` against fair answers. */
  method FairlyBackUp(j: Job, tools: Tools, w: World, respond: (nat, Action, World) -> (Status, World))
    returns (ok: bool, end: World)
    requires FairAnswers(tools, respond, DumpFiles(j))
    requires j.backup.backupOpts.Some? ==> TakesAll(j.backup.backupOpts.value)
    ensures exists ran :: Chained(w, ran, end) && BackupRun(j, ran, ok) && FairBackup(tools, j, ran, DumpFiles(j))
  {
    var m := new Machine(respond, w);
    ghost var ran;
    ok, ran := RunBackup(j, m);
    assert m.log == ran;
    FairBackupOf(j, tools, respond, ran);
    end := m.world;
  }

  /** `RunRestore` against fair answers. */
  method FairlyRestore(j: Job, tools: Tools, snapshot: string, w: World, respond: (nat, Action, World) -> (Status, World))
    returns (ok: bool, end: World)
    requires FairAnswers(tools, respond, DumpFiles(j))
    requires j.backup.restoreOpts.Some? && InPlace(j.backup.restoreOpts.value)
    ensures exists ran :: Chained(w, ran, end) && RestoreRun(j, snapshot, ran, ok) && FairRestore(tools, j, ran, DumpFiles(j))
  {
    var m := new Machine(respond, w);
    ghost var ran;
    ok, ran := RunRestore(j, snapshot, m);
    assert m.log == ran;
    FairRestoreOf(j, tools, respond, ran);
    end := m.world;
  }

  /** A backup, the loss of whatever `lost` does not keep, and a restore, one after the other. */
  method BackupLossRestore(j: Job, tools: Tools, w0: World, lost: map<Cell, string>, snapshot: string,
                           respond: (nat, Action, World) -> (Status, World),
                           respondLater: (nat, Action, World) -> (Status, World))
    returns (ok: bool, w3: World)
    requires LoadUndoesDump(tools) && Independent(j)
    requires FairAnswers(tools, respond, DumpFiles(j)) && FairAnswers(tools, respondLater, DumpFiles(j))
    requires j.backup.backupOpts.Some? ==> TakesAll(j.backup.backupOpts.value)
    requires j.backup.restoreOpts.Some? && InPlace(j.backup.restoreOpts.value)
    requires snapshot == "" || snapshot == "latest"
    ensures ok ==> OverOwnBlocks(j, (cell, _) => Restored(cell, w0, w3))
  {
    var w1;
    ok, w1 := FairlyBackUp(j, tools, w0, respond);
    w3 := w1;
    if ok {
      ghost var backup :|
        Chained(w0, backup, w1) && BackupRun(j, backup, ok) && FairBackup(tools, j, backup, DumpFiles(j));
      var w2 := World(lost, w1.repo);
      ok, w3 := FairlyRestore(j, tools, snapshot, w2, respondLater);
      if ok {
        ghost var restore :|
          Chained(w2, restore, w3) && RestoreRun(j, snapshot, restore, ok) && FairRestore(tools, j, restore, DumpFiles(j));
        RestoreUndoesLoss(tools, j, snapshot, w0, backup, w1, w2, restore, w3);
      }
    }
  }
}
