/**
 job.go: `EnsureInit`, `RunBackup` and `RunRestore` as loops over effects. The outside world -- shells,
 restic, files, databases -- answers each action in whatever way it likes; what a successful answer
 means is stated by `Effect`.
 */
module Pipeline {
  import opened Wrappers
  import opened ResticOptions
  import opened Jobs
  import opened Tasks

  /** File contents by path, as cells. */
  type Snapshot = map<Cell, string>

  /** `repo` is absent until the repository is initialised; its last snapshot is the latest. */
  datatype World = World(cells: map<Cell, string>, repo: Option<seq<Snapshot>>)

  datatype Status = Done | MissingRepo | Failed

  datatype Event = Event(action: Action, status: Status, before: World, after: World)

  /** Turning data into a dump file's content and back. */
  datatype Tools = Tools(dump: (Cell, string) -> string, load: (Cell, string) -> string)

  ghost predicate LoadUndoesDump(tools: Tools) {
    forall c, data :: tools.load(c, tools.dump(c, data)) == data
  }

  // ----- What actions mean -------------------------------------------------------------------------

  /** Backing up `root` includes the file at `path`. */
  predicate Under(root: string, path: string) {
    path == root || root + "/" <= path || (root != "" && root[|root| - 1] == '/' && root <= path)
  }

  /** The content of everything found under `paths`. */
  ghost function Taken(cells: map<Cell, string>, paths: seq<string>): Snapshot {
    map c | c in cells && c.File? && (exists p :: p in paths && Under(p, c.path)) :: cells[c]
  }

  /** Writing one of the cells may change the other. */
  predicate Overlap(a: Cell, b: Cell) {
    match (a, b)
    case (File(p), File(q)) => p == q
    case (MySQLData(h0, p0, d0, t0), MySQLData(h1, p1, d1, t1)) => h0 == h1 && p0 == p1 && SharesData(d0, t0, d1, t1)
    case (PostgresData(h0, p0, d0, t0), PostgresData(h1, p1, d1, t1)) => h0 == h1 && p0 == p1 && SharesData(d0, t0, d1, t1)
    case _ => false
  }

  /** No database name means all of them, no table names all tables. */
  predicate SharesData(d0: string, t0: seq<string>, d1: string, t1: seq<string>) {
    d0 == "" || d1 == "" || (d0 == d1 && (t0 == [] || t1 == [] || exists t :: t in t0 && t in t1))
  }

  /** `c` has the same content, or is equally absent, in both. */
  predicate SameAt(c: Cell, w: World, w': World) {
    (c in w.cells <==> c in w'.cells) && (c in w.cells ==> w.cells[c] == w'.cells[c])
  }

  /** Options that leave nothing out of a snapshot. */
  predicate TakesAll(opts: BackupOpts) { opts.exclude == [] && opts.includes == [] }

  /** Options that put the whole latest snapshot back where it came from. */
  predicate InPlace(opts: RestoreOpts) {
    opts.exclude == [] && opts.includes == [] && opts.host == [] && opts.tags == [] && opts.path == "" && opts.target == "/"
  }

  /**
   What is assumed of a successful action. A user's script may do anything; so may a restore that is
   not the latest snapshot in place.
   */
  ghost predicate Effect(tools: Tools, a: Action, w: World, w': World) {
    match a
    case Shell(NoCommand) => w' == w
    case Shell(UserScript(_)) => true
    case Shell(Dump(source, path)) =>
      && w'.repo == w.repo
      && (forall c :: c != File(path) && (c == source ==> c in w.cells) ==> SameAt(c, w, w'))
      && (source in w.cells ==> File(path) in w'.cells && w'.cells[File(path)] == tools.dump(source, w.cells[source]))
    case Shell(Load(path, target)) =>
      && w'.repo == w.repo
      && (forall c :: !Overlap(target, c) ==> SameAt(c, w, w'))
      && (File(path) in w.cells ==> target in w'.cells && w'.cells[target] == tools.load(target, w.cells[File(path)]))
    case ResticSnapshots => w' == w
    case ResticInit => w'.cells == w.cells
    case ResticBackup(paths, opts) =>
      && w'.cells == w.cells
      && w'.repo.Some?
      && |w'.repo.value| > 0
      && (TakesAll(opts) ==> w'.repo.value[|w'.repo.value| - 1] == Taken(w.cells, paths))
    case ResticRestore(snapshot, opts) =>
      && w'.repo == w.repo
      && (snapshot == "latest" && InPlace(opts) && w.repo.Some? && |w.repo.value| > 0 ==>
            w'.cells == w.cells + w.repo.value[|w.repo.value| - 1])
    case ResticForget(_) => w'.cells == w.cells
  }

  /** Listing snapshots never changes anything, even when it fails. */
  ghost predicate Lawful(tools: Tools, e: Event) {
    && (e.status.Done? ==> Effect(tools, e.action, e.before, e.after))
    && (e.action.ResticSnapshots? ==> e.after == e.before)
  }

  /** The newest snapshot is the same before and after. */
  ghost predicate KeepsNewest(e: Event) {
    e.before.repo.Some? && |e.before.repo.value| > 0 ==>
      && e.after.repo.Some? && |e.after.repo.value| > 0
      && e.after.repo.value[|e.after.repo.value| - 1] == e.before.repo.value[|e.before.repo.value| - 1]
  }

  // ----- Runs --------------------------------------------------------------------------------------

  /** Event `i` leaves the world in which the next one happens. */
  ghost predicate Linked(ran: seq<Event>, i: nat) { i + 1 < |ran| ==> ran[i].after == ran[i + 1].before }

  /** The events lead from world `w` to world `w'`. */
  ghost predicate Chained(w: World, ran: seq<Event>, w': World) {
    && (ran == [] ==> w' == w)
    && (ran != [] ==> ran[0].before == w && ran[|ran| - 1].after == w')
    && forall i: nat :: Linked(ran, i)
  }

  /** All of `plan` was done, in order. */
  ghost predicate AllDone(plan: seq<Action>, ran: seq<Event>) {
    |ran| == |plan| && forall i :: 0 <= i < |ran| ==> ran[i].action == plan[i] && ran[i].status.Done?
  }

  /** `plan` was carried out up to its first failing action, if there is one. */
  ghost predicate Executes(plan: seq<Action>, ran: seq<Event>, ok: bool) {
    if ok then AllDone(plan, ran)
    else
      && 0 < |ran| <= |plan|
      && (forall i :: 0 <= i < |ran| ==> ran[i].action == plan[i])
      && (forall i :: 0 <= i < |ran| - 1 ==> ran[i].status.Done?)
      && !ran[|ran| - 1].status.Done?
  }

  /** Number of events `EnsureInit` takes: a missing repository is initialised. */
  function InitLength(ran: seq<Event>): nat {
    if ran != [] && ran[0].status.MissingRepo? then 2 else 1
  }

  function ForgetPlan(j: Job): seq<Action> {
    if j.forget.Some? then [ResticForget(j.forget.value)] else []
  }

  /** A run of `RunBackup`. Only a missing repository makes the first command matter. */
  ghost predicate BackupRun(j: Job, ran: seq<Event>, ok: bool) {
    var n := InitLength(ran);
    && n <= |ran|
    && ran[0].action == ResticSnapshots
    && (n == 2 ==> ran[1].action == ResticInit)
    && if n == 2 && !ran[1].status.Done? then |ran| == 2 && !ok
       else Executes(BackupPlan(j) + ForgetPlan(j), ran[n..], ok)
  }

  /** A run of `RunRestore`. */
  ghost predicate RestoreRun(j: Job, snapshot: string, ran: seq<Event>, ok: bool) {
    && 1 <= |ran|
    && ran[0].action == ResticSnapshots
    && if ran[0].status.MissingRepo? then |ran| == 1 && !ok
       else Executes(RestorePlan(j, snapshot), ran[1..], ok)
  }

  /** Where effects happen. `respond` decides the n-th answer; every history of answers is one such function. */
  class Machine {
    const respond: (nat, Action, World) -> (Status, World)
    var world: World
    var log: seq<Event>

    ghost const start: World

    ghost predicate Valid()
      reads this
    {
      && Chained(start, log, world)
      && forall i :: 0 <= i < |log| ==> (log[i].status, log[i].after) == respond(i, log[i].action, log[i].before)
    }

    constructor (respond: (nat, Action, World) -> (Status, World), world: World)
      ensures Valid() && log == [] && this.start == world && this.respond == respond
    {
      this.respond, this.start, this.world, this.log := respond, world, world, [];
    }

    method Perform(a: Action) returns (s: Status)
      requires Valid()
      modifies this
      ensures Valid()
      ensures log == old(log) + [Event(a, s, old(world), world)]
    {
      var answer := respond(|log|, a, world);
      s := answer.0;
      log := log + [Event(a, s, world, answer.1)];
      world := answer.1;
      forall i: nat ensures Linked(log, i) {
        assert Linked(old(log), i);
      }
    }
  }

  /** `Restic.EnsureInit`: errors other than a missing repository are ignored. */
  method EnsureInit(m: Machine) returns (ok: bool, ghost ran: seq<Event>)
    requires m.Valid()
    modifies m
    ensures m.Valid() && m.log == old(m.log) + ran
    ensures |ran| == InitLength(ran) && ran[0].action == ResticSnapshots
    ensures 1 <= |ran| <= 2 && (ran[0].status.MissingRepo? <==> |ran| == 2)
    ensures |ran| == 2 ==> ran[1].action == ResticInit
    ensures ok <==> (|ran| == 2 ==> ran[1].status.Done?)
  {
    var s := m.Perform(ResticSnapshots);
    ok, ran := true, [m.log[|m.log| - 1]];
    if s.MissingRepo? {
      s := m.Perform(ResticInit);
      ok, ran := s.Done?, ran + [m.log[|m.log| - 1]];
    }
  }

  /** The actions of one task, at most one. */
  method PerformAll(m: Machine, actions: seq<Action>) returns (ok: bool, ghost ran: seq<Event>)
    requires m.Valid() && |actions| <= 1
    modifies m
    ensures m.Valid() && m.log == old(m.log) + ran
    ensures Executes(actions, ran, ok)
  {
    ok, ran := true, [];
    if |actions| == 1 {
      var s := m.Perform(actions[0]);
      ok, ran := s.Done?, [m.log[|m.log| - 1]];
    }
  }

  lemma ExecutesNext(plan: seq<Action>, next: seq<Action>, ran: seq<Event>, more: seq<Event>, ok: bool)
    requires AllDone(plan, ran) && Executes(next, more, ok)
    ensures Executes(plan + next, ran + more, ok)
  {
  }

  /** A failed run is a failed run of any longer plan. */
  lemma ExecutesLonger(plan: seq<Action>, rest: seq<Action>, ran: seq<Event>)
    requires Executes(plan, ran, false)
    ensures Executes(plan + rest, ran, false)
  {
  }

  lemma BackupActionsSplit(tasks: seq<ExecutableTask>, i: nat, paths: seq<string>)
    requires i < |tasks|
    ensures BackupActions(tasks[..i + 1], paths) == BackupActions(tasks[..i], paths) + OnBackup(tasks[i], paths)
    ensures BackupActions(tasks, paths) == BackupActions(tasks[..i + 1], paths) + BackupActions(tasks[i + 1..], paths)
  {
    assert tasks[..i + 1] == tasks[..i] + [tasks[i]];
    ActionsAppend(tasks[..i], tasks[i], paths, "");
    assert tasks == tasks[..i + 1] + tasks[i + 1..];
    BackupActionsConcat(tasks[..i + 1], tasks[i + 1..], paths);
  }

  lemma RestoreActionsSplit(tasks: seq<ExecutableTask>, i: nat, snapshot: string)
    requires i < |tasks|
    ensures RestoreActions(tasks[..i + 1], snapshot) == RestoreActions(tasks[..i], snapshot) + OnRestore(tasks[i], snapshot)
    ensures RestoreActions(tasks, snapshot) == RestoreActions(tasks[..i + 1], snapshot) + RestoreActions(tasks[i + 1..], snapshot)
  {
    assert tasks[..i + 1] == tasks[..i] + [tasks[i]];
    ActionsAppend(tasks[..i], tasks[i], [], snapshot);
    assert tasks == tasks[..i + 1] + tasks[i + 1..];
    RestoreActionsConcat(tasks[..i + 1], tasks[i + 1..], snapshot);
  }

  /** The loop over `AllTasks` in `RunBackup`. */
  method BackupTasks(m: Machine, tasks: seq<ExecutableTask>, paths: seq<string>) returns (ok: bool, ghost ran: seq<Event>)
    requires m.Valid()
    modifies m
    ensures m.Valid() && m.log == old(m.log) + ran
    ensures Executes(BackupActions(tasks, paths), ran, ok)
  {
    ran := [];
    for i := 0 to |tasks|
      invariant m.Valid() && m.log == old(m.log) + ran
      invariant AllDone(BackupActions(tasks[..i], paths), ran)
    {
      ghost var more;
      ok, more := PerformAll(m, OnBackup(tasks[i], paths));
      Associative(old(m.log), ran, more);
      BackupActionsSplit(tasks, i, paths);
      ExecutesNext(BackupActions(tasks[..i], paths), OnBackup(tasks[i], paths), ran, more, ok);
      ran := ran + more;
      if !ok {
        ExecutesLonger(BackupActions(tasks[..i + 1], paths), BackupActions(tasks[i + 1..], paths), ran);
        return;
      }
    }
    assert tasks[..|tasks|] == tasks;
    ok := true;
  }

  /** The loop over `AllTasks` in `RunRestore`. */
  method RestoreTasks(m: Machine, tasks: seq<ExecutableTask>, snapshot: string) returns (ok: bool, ghost ran: seq<Event>)
    requires m.Valid()
    modifies m
    ensures m.Valid() && m.log == old(m.log) + ran
    ensures Executes(RestoreActions(tasks, snapshot), ran, ok)
  {
    ran := [];
    for i := 0 to |tasks|
      invariant m.Valid() && m.log == old(m.log) + ran
      invariant AllDone(RestoreActions(tasks[..i], snapshot), ran)
    {
      ghost var more;
      ok, more := PerformAll(m, OnRestore(tasks[i], snapshot));
      Associative(old(m.log), ran, more);
      RestoreActionsSplit(tasks, i, snapshot);
      ExecutesNext(RestoreActions(tasks[..i], snapshot), OnRestore(tasks[i], snapshot), ran, more, ok);
      ran := ran + more;
      if !ok {
        ExecutesLonger(RestoreActions(tasks[..i + 1], snapshot), RestoreActions(tasks[i + 1..], snapshot), ran);
        return;
      }
    }
    assert tasks[..|tasks|] == tasks;
    ok := true;
  }

  lemma BackupRunFrom(j: Job, init: seq<Event>, ran: seq<Event>, ok: bool)
    requires |init| == InitLength(init) && init[0].action == ResticSnapshots
    requires |init| == 2 ==> init[1].action == ResticInit && init[1].status.Done?
    requires Executes(BackupPlan(j) + ForgetPlan(j), ran, ok)
    ensures BackupRun(j, init + ran, ok)
  {
    assert (init + ran)[|init|..] == ran;
  }

  /**
   What a run of `RunBackup` did about the repository and about forgetting: it initialised exactly a missing
   repository, and failed if that failed; it forgot, if the job says so, at the very end of a run, with the
   job's options, and did not succeed without; and a job that says nothing forgets nothing.
   */
  ghost predicate BackupOutcome(j: Job, ran: seq<Event>, ok: bool) {
    && ran != [] && ran[0].action == ResticSnapshots
    && (ran[0].status.MissingRepo? <==> |ran| >= 2 && ran[1].action == ResticInit)
    && (ran[0].status.MissingRepo? && |ran| >= 2 && !ran[1].status.Done? ==> |ran| == 2 && !ok)
    && (forall i :: 2 <= i < |ran| ==> ran[i].action != ResticInit)
    && (ok && j.forget.Some? ==>
          ran[|ran| - 1].action == ResticForget(j.forget.value) && ran[|ran| - 1].status.Done?)
    && forall i :: 0 <= i < |ran| && ran[i].action.ResticForget? ==>
         i == |ran| - 1 && j.forget == Some(ran[i].action.forgetOpts)
  }

  /** Nothing in the plan of the tasks initialises or forgets. */
  lemma TasksOnlyAct(j: Job)
    ensures forall a :: a in BackupPlan(j) ==> !a.ResticInit? && !a.ResticForget?
  {
    NestedOnBackup(j.tasks, BackupPaths(j));
    MembersAreDumps(Databases(j));
    QuietParts(DumpActions(Databases(j)), BackupActions(AllPre(j.tasks), BackupPaths(j)), TheBackup(j), BackupTail(j));
  }

  lemma QuietParts(dumps: seq<Action>, before: seq<Action>, backup: Action, after: seq<Action>)
    requires forall a :: a in dumps || a in before || a in after ==> a.Shell?
    requires backup.ResticBackup?
    ensures forall a :: a in dumps + before + [backup] + after ==> !a.ResticInit? && !a.ResticForget?
  {
  }

  lemma ForgetsLast(plan: seq<Action>, forget: seq<Action>, ran: seq<Event>, ok: bool)
    requires Executes(plan + forget, ran, ok) && |forget| <= 1
    requires forall a :: a in plan ==> !a.ResticInit? && !a.ResticForget?
    requires forall a :: a in forget ==> a.ResticForget?
    ensures forall i :: 0 <= i < |ran| ==> !ran[i].action.ResticInit?
    ensures forall i :: 0 <= i < |ran| && ran[i].action.ResticForget? ==> i == |plan| == |ran| - 1 && forget == [ran[i].action]
    ensures ok && forget != [] ==> ran != [] && ran[|ran| - 1].action == forget[0] && ran[|ran| - 1].status.Done?
  {
    forall i | 0 <= i < |ran|
      ensures i < |plan| ==> ran[i].action in plan
      ensures i >= |plan| ==> i == |plan| && forget == [ran[i].action] && ran[i].action in forget
    {
      assert ran[i].action == (plan + forget)[i];
    }
  }

  lemma OutcomeFrom(j: Job, n: nat, plan: seq<Action>, ran: seq<Event>, ok: bool)
    requires 1 <= n <= 2 && n <= |ran| && ran[0].action == ResticSnapshots && (ran[0].status.MissingRepo? <==> n == 2)
    requires n == 2 ==> ran[1].action == ResticInit && ran[1].status.Done?
    requires Executes(plan + ForgetPlan(j), ran[n..], ok) && plan != []
    requires forall a :: a in plan ==> !a.ResticInit? && !a.ResticForget?
    ensures BackupOutcome(j, ran, ok)
  {
    var rest := ran[n..];
    ForgetsLast(plan, ForgetPlan(j), rest, ok);
    forall i | n <= i < |ran| ensures ran[i] == rest[i - n] {
    }
  }

  lemma OutcomeOf(j: Job, ran: seq<Event>, ok: bool)
    requires BackupRun(j, ran, ok)
    ensures BackupOutcome(j, ran, ok)
  {
    var n := InitLength(ran);
    if n != 2 || ran[1].status.Done? {
      TasksOnlyAct(j);
      OutcomeFrom(j, n, BackupPlan(j), ran, ok);
    }
  }

  /** `Job.RunBackup`; `ran` is what the run did. */
  method RunBackup(j: Job, m: Machine) returns (ok: bool, ghost ran: seq<Event>)
    requires m.Valid()
    modifies m
    ensures m.Valid() && m.log == old(m.log) + ran
    ensures BackupRun(j, ran, ok) && BackupOutcome(j, ran, ok)
  {
    ok, ran := RunBackupSteps(j, m);
    OutcomeOf(j, ran, ok);
  }

  method RunBackupSteps(j: Job, m: Machine) returns (ok: bool, ghost ran: seq<Event>)
    requires m.Valid()
    modifies m
    ensures m.Valid() && m.log == old(m.log) + ran
    ensures BackupRun(j, ran, ok)
  {
    ok, ran := EnsureInit(m);
    if !ok {
      return;
    }
    ghost var init := ran;
    var tasks := AllTasks(j);
    BackupReading(j);
    ghost var done;
    ok, done := BackupTasks(m, tasks, BackupPaths(j));
    Associative(old(m.log), init, done);
    ran := init + done;
    if !ok {
      ExecutesLonger(BackupPlan(j), ForgetPlan(j), done);
      BackupRunFrom(j, init, done, false);
      return;
    }
    ghost var last;
    ok, last := PerformAll(m, if j.forget.Some? then [ResticForget(j.forget.value)] else []);
    ExecutesNext(BackupPlan(j), ForgetPlan(j), done, last, ok);
    BackupRunFrom(j, init, done + last, ok);
    Associative(old(m.log), ran, last);
    Associative(init, done, last);
    ran := ran + last;
  }

  /**
   A restore begins with a listing. A missing repository ends it there as a failure; after any other
   answer it goes on, and it succeeds exactly if everything after the listing did.
   */
  ghost predicate RestoreOutcome(ran: seq<Event>, ok: bool) {
    && ran != [] && ran[0].action == ResticSnapshots
    && (ran[0].status.MissingRepo? <==> |ran| == 1)
    && (ok <==> |ran| > 1 && forall i :: 1 <= i < |ran| ==> ran[i].status.Done?)
    && forall i :: 1 <= i < |ran| - 1 ==> ran[i].status.Done?
  }

  lemma RestoreOutcomeOf(j: Job, snapshot: string, ran: seq<Event>, ok: bool)
    requires RestoreRun(j, snapshot, ran, ok)
    ensures RestoreOutcome(ran, ok)
  {
    if !ran[0].status.MissingRepo? {
      RestoreOutcomeFrom(RestorePlan(j, snapshot), ran, ok);
    }
  }

  lemma RestoreOutcomeFrom(plan: seq<Action>, ran: seq<Event>, ok: bool)
    requires plan != [] && ran != [] && ran[0].action == ResticSnapshots && !ran[0].status.MissingRepo?
    requires Executes(plan, ran[1..], ok)
    ensures RestoreOutcome(ran, ok)
  {
    forall i | 1 <= i < |ran| ensures ran[i] == ran[1..][i - 1] {
    }
  }

  /** `Job.RunRestore`. */
  method RunRestore(j: Job, snapshot: string, m: Machine) returns (ok: bool, ghost ran: seq<Event>)
    requires m.Valid()
    modifies m
    ensures m.Valid() && m.log == old(m.log) + ran
    ensures RestoreRun(j, snapshot, ran, ok) && RestoreOutcome(ran, ok)
  {
    ok, ran := RunRestoreSteps(j, snapshot, m);
    RestoreOutcomeOf(j, snapshot, ran, ok);
  }

  method RunRestoreSteps(j: Job, snapshot: string, m: Machine) returns (ok: bool, ghost ran: seq<Event>)
    requires m.Valid()
    modifies m
    ensures m.Valid() && m.log == old(m.log) + ran
    ensures RestoreRun(j, snapshot, ran, ok)
  {
    var s := m.Perform(ResticSnapshots);
    ran := [m.log[|m.log| - 1]];
    if s.MissingRepo? {
      return false, ran;
    }
    ghost var probe := ran;
    var tasks := AllTasks(j);
    RestoreReading(j, snapshot);
    ghost var done;
    ok, done := RestoreTasks(m, tasks, snapshot);
    Associative(old(m.log), probe, done);
    ran := probe + done;
    assert ran[1..] == done;
  }
}
