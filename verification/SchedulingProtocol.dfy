/**
 scheduler.go with concurrency: any number of callers of the scheduler's methods, cron instances that
 fire, and runs that finish, interleaved step by step. A step is one critical section, one call into a
 cron instance, one firing or one finished run.
 */
module SchedulingProtocol {
  import opened Wrappers
  import opened Jobs
  import opened Scheduling

  /** A started cron instance. */
  datatype Instance = Instance(entries: seq<Job>, running: bool, inFlight: multiset<Job>)

  datatype Outcome =
    | NoCall
    | StartDone(err: Option<StartError>)
    | StopDone
    | ReplaceDone(outcome: ReplaceOutcome)

  /** What a caller does once the cron it detached has been stopped. */
  datatype After = Return | WaitThenReturn | WaitThenStart(prev: seq<Job>, new_: seq<Job>)

  /** Where a caller stands between two of its steps. */
  datatype Caller =
    | Idle(last: Outcome)
    | AboutToDetach(prev: seq<Job>, new_: seq<Job>)
    | Holding(cron: nat, after: After)
    | Waiting(cron: nat, after: After)
    | AboutToStart(prev: seq<Job>, new_: seq<Job>)
    | AboutToRestart(prev: seq<Job>, original: StartError)

  /** `crons` holds every cron instance ever started, oldest first. */
  datatype System = System(sched: State<nat>, crons: seq<Instance>, callers: seq<Caller>)

  datatype Step =
    | CallStart(i: nat, jobs: seq<Job>)
    | CallStopNow(i: nat)
    | CallStopGraceful(i: nat)
    | CallReplace(i: nat, jobs: seq<Job>)
    | Advance(i: nat)
    | Fire(c: nat, job: Job)
    | Finish(c: nat, job: Job)

  predicate IsCall(step: Step) {
    step.CallStart? || step.CallStopNow? || step.CallStopGraceful? || step.CallReplace?
  }

  function Init(callers: nat): System {
    System(State(None, [], [], false), [], seq(callers, _ => Idle(NoCall)))
  }

  // ----- Steps -------------------------------------------------------------------------------------

  function At(s: System, i: nat, caller: Caller): System
    requires i < |s.callers|
  {
    s.(callers := s.callers[i := caller])
  }

  function StartErrorOf(s: System, jobs: seq<Job>, addable: string -> bool): (err: Option<StartError>)
    ensures err.None? <==> !s.sched.started && AllAddable(jobs, addable)
    ensures err.Some? ==> StartFails(s.sched, jobs, addable, err.value)
  {
    if s.sched.started then Some(AlreadyStarted)
    else if AllAddable(jobs, addable) then None
    else
      var k := FirstRefusedAt(jobs, addable);
      assert FirstRefused(jobs, addable, k);
      Some(Unschedulable(jobs[k]))
  }

  function FirstRefusedAt(jobs: seq<Job>, addable: string -> bool): (k: nat)
    requires !AllAddable(jobs, addable)
    ensures FirstRefused(jobs, addable, k)
    decreases |jobs|
  {
    var front := jobs[..|jobs| - 1];
    if AllAddable(front, addable) then |front|
    else
      var k := FirstRefusedAt(front, addable);
      assert front[..k] == jobs[..k];
      k
  }

  /** The critical section of `Start` when it succeeds: a new running instance, attached. */
  function StartNew(s: System, jobs: seq<Job>): System {
    s.(sched := Started(|s.crons|, jobs), crons := s.crons + [Instance(jobs, true, multiset{})])
  }

  /** The critical section of a stop: caller `i` now holds the cron, or goes on at once if there was none. */
  function Detach(s: System, i: nat, after: After): System
    requires i < |s.callers|
  {
    var next := if s.sched.cron.Some? then Holding(s.sched.cron.value, after) else Resume(after);
    At(s.(sched := Detached(s.sched)), i, next)
  }

  function Resume(after: After): Caller {
    match after
    case Return => Idle(StopDone)
    case WaitThenReturn => Idle(StopDone)
    case WaitThenStart(prev, new_) => AboutToStart(prev, new_)
  }

  /** The next step of a caller inside a call. */
  function Continue(s: System, i: nat, addable: string -> bool): System
    requires i < |s.callers| && !s.callers[i].Idle?
    requires s.callers[i].Holding? ==> s.callers[i].cron < |s.crons|
  {
    match s.callers[i]
    case AboutToDetach(prev, new_) => Detach(s, i, WaitThenStart(prev, new_))
    case Holding(c, after) =>
      At(s.(crons := s.crons[c := s.crons[c].(running := false)]), i,
         if after.Return? then Idle(StopDone) else Waiting(c, after))
    case Waiting(_, after) => At(s, i, Resume(after))
    case AboutToStart(prev, new_) =>
      var err := StartErrorOf(s, new_, addable);
      if err.None? then At(StartNew(s, new_), i, Idle(ReplaceDone(Replaced)))
      else if |prev| > 0 then At(s, i, AboutToRestart(prev, err.value))
      else At(s, i, Idle(ReplaceDone(NoPrevious(err.value))))
    case AboutToRestart(prev, original) =>
      var err := StartErrorOf(s, prev, addable);
      if err.None? then At(StartNew(s, prev), i, Idle(ReplaceDone(Recovered(original))))
      else At(s, i, Idle(ReplaceDone(RestartFailed(err.value, original))))
  }

  predicate Enabled(s: System, step: Step) {
    match step
    case CallStart(i, _) => i < |s.callers| && s.callers[i].Idle?
    case CallStopNow(i) => i < |s.callers| && s.callers[i].Idle?
    case CallStopGraceful(i) => i < |s.callers| && s.callers[i].Idle?
    case CallReplace(i, _) => i < |s.callers| && s.callers[i].Idle?
    case Advance(i) =>
      && i < |s.callers| && !s.callers[i].Idle?
      && (s.callers[i].Holding? || s.callers[i].Waiting? ==> s.callers[i].cron < |s.crons|)
      && (s.callers[i].Waiting? ==> s.crons[s.callers[i].cron].inFlight == multiset{})
    case Fire(c, job) => c < |s.crons| && s.crons[c].running && job in s.crons[c].entries
    case Finish(c, job) => c < |s.crons| && job in s.crons[c].inFlight
  }

  function Apply(s: System, step: Step, addable: string -> bool): System
    requires Enabled(s, step)
  {
    match step
    case CallStart(i, jobs) =>
      var err := StartErrorOf(s, jobs, addable);
      At(if err.None? then StartNew(s, jobs) else s, i, Idle(StartDone(err)))
    case CallStopNow(i) => Detach(s, i, Return)
    case CallStopGraceful(i) => Detach(s, i, WaitThenReturn)
    case CallReplace(i, jobs) => At(s, i, AboutToDetach(s.sched.jobs, jobs))
    case Advance(i) => Continue(s, i, addable)
    case Fire(c, job) => s.(crons := s.crons[c := s.crons[c].(inFlight := s.crons[c].inFlight + multiset{job})])
    case Finish(c, job) => s.(crons := s.crons[c := s.crons[c].(inFlight := s.crons[c].inFlight - multiset{job})])
  }

  /** The steps lead from `s` to `s'`. */
  predicate Runs(s: System, steps: seq<Step>, s': System, addable: string -> bool)
    decreases |steps|
  {
    if steps == [] then s' == s
    else Enabled(s, steps[0]) && Runs(Apply(s, steps[0], addable), steps[1..], s', addable)
  }

  // ----- No cron is orphaned -----------------------------------------------------------------------

  predicate Attached(s: System, c: nat) { s.sched.cron == Some(c) }

  /** Caller `i` has detached `c` and is about to stop it. */
  predicate HeldBy(s: System, c: nat, i: nat) {
    i < |s.callers| && s.callers[i].Holding? && s.callers[i].cron == c
  }

  predicate Stopped(s: System, c: nat) { c < |s.crons| && !s.crons[c].running }

  /** A started cron is attached, or held by one caller, or stopped, and only one of these. */
  ghost predicate Owned(s: System, c: nat) {
    && (Attached(s, c) ==> !Stopped(s, c) && forall i: nat :: !HeldBy(s, c, i))
    && (Stopped(s, c) ==> forall i: nat :: !HeldBy(s, c, i))
    && (forall i: nat, k: nat :: HeldBy(s, c, i) && HeldBy(s, c, k) ==> i == k)
    && (Attached(s, c) || Stopped(s, c) || exists i: nat :: HeldBy(s, c, i))
  }

  /** What a caller refers to exists; the cron it waits for is stopped; what it may restart can be scheduled. */
  predicate CallerOk(s: System, caller: Caller, addable: string -> bool) {
    match caller
    case Idle(_) => true
    case AboutToDetach(prev, _) => AllAddable(prev, addable)
    case Holding(c, after) => c < |s.crons| && (after.WaitThenStart? ==> AllAddable(after.prev, addable))
    case Waiting(c, after) => Stopped(s, c) && !after.Return? && (after.WaitThenStart? ==> AllAddable(after.prev, addable))
    case AboutToStart(prev, _) => AllAddable(prev, addable)
    case AboutToRestart(prev, _) => AllAddable(prev, addable)
  }

  /** What every step of every caller keeps. */
  ghost predicate Inv(s: System, addable: string -> bool) {
    && Consistent(s.sched, addable)
    && (forall c: nat :: Attached(s, c) ==> c < |s.crons| && s.crons[c].entries == s.sched.jobs)
    && (forall c: nat :: c < |s.crons| ==> Owned(s, c))
    && (forall i :: 0 <= i < |s.callers| ==> CallerOk(s, s.callers[i], addable))
  }

  lemma InvInit(callers: nat, addable: string -> bool)
    ensures Inv(Init(callers), addable)
  {
  }

  /** `s'` differs from `s` in nothing that ownership depends on. */
  ghost predicate SameOwners(s: System, s': System) {
    && s'.sched == s.sched && |s'.crons| == |s.crons| && |s'.callers| == |s.callers|
    && (forall c :: 0 <= c < |s.crons| ==>
          s'.crons[c].running == s.crons[c].running && s'.crons[c].entries == s.crons[c].entries)
    && (forall c: nat, i: nat :: HeldBy(s', c, i) <==> HeldBy(s, c, i))
  }

  lemma InvSame(s: System, s': System, addable: string -> bool)
    requires Inv(s, addable) && SameOwners(s, s')
    requires forall i :: 0 <= i < |s'.callers| ==> CallerOk(s, s'.callers[i], addable)
    ensures Inv(s', addable)
  {
    assert forall c: nat :: Attached(s', c) ==> Attached(s, c);
    forall c: nat | c < |s'.crons| ensures Owned(s', c) {
      assert Owned(s, c);
      if i: nat :| HeldBy(s, c, i) {
        assert HeldBy(s', c, i);
      }
    }
    assert forall i :: 0 <= i < |s'.callers| ==> CallerOk(s', s'.callers[i], addable);
  }

  /** Caller `i` moves between places at which it holds nothing. */
  lemma InvAt(s: System, i: nat, caller: Caller, addable: string -> bool)
    requires Inv(s, addable) && i < |s.callers|
    requires !s.callers[i].Holding? && !caller.Holding? && CallerOk(s, caller, addable)
    ensures Inv(At(s, i, caller), addable)
  {
    InvSame(s, At(s, i, caller), addable);
  }

  lemma InvStartNew(s: System, jobs: seq<Job>, addable: string -> bool)
    requires Inv(s, addable) && !s.sched.started && AllAddable(jobs, addable)
    ensures Inv(StartNew(s, jobs), addable)
  {
    var s' := StartNew(s, jobs);
    forall c: nat | c < |s'.crons| ensures Owned(s', c) {
      assert forall i: nat :: HeldBy(s', c, i) <==> HeldBy(s, c, i);
      if c < |s.crons| {
        assert Owned(s, c);
        if i: nat :| HeldBy(s, c, i) {
          assert HeldBy(s', c, i);
        }
      } else {
        forall i: nat ensures !HeldBy(s', c, i) {
          if i < |s.callers| {
            assert CallerOk(s, s.callers[i], addable);
          }
        }
      }
    }
    forall i | 0 <= i < |s'.callers| ensures CallerOk(s', s'.callers[i], addable) {
      assert CallerOk(s, s.callers[i], addable);
    }
  }

  lemma InvDetach(s: System, i: nat, after: After, addable: string -> bool)
    requires Inv(s, addable) && i < |s.callers| && !s.callers[i].Holding?
    requires after.WaitThenStart? ==> AllAddable(after.prev, addable)
    ensures Inv(Detach(s, i, after), addable)
  {
    var s' := Detach(s, i, after);
    forall c: nat | c < |s'.crons| ensures Owned(s', c) {
      assert Owned(s, c);
      assert forall k: nat :: HeldBy(s', c, k) <==> (if k == i then Attached(s, c) else HeldBy(s, c, k));
      if k: nat :| HeldBy(s, c, k) {
        assert HeldBy(s', c, k);
      }
      if Attached(s, c) {
        assert HeldBy(s', c, i);
      }
    }
    forall k | 0 <= k < |s'.callers| ensures CallerOk(s', s'.callers[k], addable) {
      assert CallerOk(s, s.callers[k], addable);
      assert s.sched.cron.Some? ==> Attached(s, s.sched.cron.value);
    }
  }

  lemma InvStop(s: System, i: nat, addable: string -> bool)
    requires Inv(s, addable) && i < |s.callers| && s.callers[i].Holding?
    ensures s.callers[i].cron < |s.crons|
    ensures Inv(Continue(s, i, addable), addable)
  {
    assert CallerOk(s, s.callers[i], addable);
    var s', held := Continue(s, i, addable), s.callers[i].cron;
    assert HeldBy(s, held, i);
    assert forall c: nat :: Attached(s', c) <==> Attached(s, c);
    forall c: nat | c < |s'.crons| ensures Owned(s', c) {
      assert Owned(s, c);
      assert forall k: nat :: HeldBy(s', c, k) <==> HeldBy(s, c, k) && k != i;
      if k: nat :| c != held && HeldBy(s, c, k) {
        assert HeldBy(s', c, k);
      }
    }
    forall k | 0 <= k < |s'.callers| ensures CallerOk(s', s'.callers[k], addable) {
      assert CallerOk(s, s.callers[k], addable);
    }
  }

  lemma InvContinue(s: System, i: nat, addable: string -> bool)
    requires Inv(s, addable) && Enabled(s, Advance(i))
    ensures Inv(Continue(s, i, addable), addable)
  {
    assert CallerOk(s, s.callers[i], addable);
    match s.callers[i]
    case AboutToDetach(prev, new_) => InvDetach(s, i, WaitThenStart(prev, new_), addable);
    case Holding(_, _) => InvStop(s, i, addable);
    case Waiting(_, after) => InvAt(s, i, Resume(after), addable);
    case AboutToStart(prev, new_) =>
      InvStartOr(s, i, new_, Idle(ReplaceDone(Replaced)), addable);
      var err := StartErrorOf(s, new_, addable);
      if err.Some? {
        InvAt(s, i, if |prev| > 0 then AboutToRestart(prev, err.value) else Idle(ReplaceDone(NoPrevious(err.value))), addable);
      }
    case AboutToRestart(prev, original) =>
      InvStartOr(s, i, prev, Idle(ReplaceDone(Recovered(original))), addable);
      var err := StartErrorOf(s, prev, addable);
      if err.Some? {
        InvAt(s, i, Idle(ReplaceDone(RestartFailed(err.value, original))), addable);
      }
  }

  lemma InvStartOr(s: System, i: nat, jobs: seq<Job>, next: Caller, addable: string -> bool)
    requires Inv(s, addable) && i < |s.callers| && !s.callers[i].Holding? && next.Idle?
    ensures StartErrorOf(s, jobs, addable).None? ==> Inv(At(StartNew(s, jobs), i, next), addable)
  {
    if StartErrorOf(s, jobs, addable).None? {
      InvStartNew(s, jobs, addable);
      InvAt(StartNew(s, jobs), i, next, addable);
    }
  }

  lemma InvStep(s: System, step: Step, addable: string -> bool)
    requires Inv(s, addable) && Enabled(s, step)
    ensures Inv(Apply(s, step, addable), addable)
  {
    match step
    case CallStart(i, jobs) =>
      var err := StartErrorOf(s, jobs, addable);
      InvStartOr(s, i, jobs, Idle(StartDone(err)), addable);
      InvAt(s, i, Idle(StartDone(err)), addable);
    case CallStopNow(i) => InvDetach(s, i, Return, addable);
    case CallStopGraceful(i) => InvDetach(s, i, WaitThenReturn, addable);
    case CallReplace(i, jobs) => InvAt(s, i, AboutToDetach(s.sched.jobs, jobs), addable);
    case Advance(i) => InvContinue(s, i, addable);
    case Fire(_, _) => InvSame(s, Apply(s, step, addable), addable);
    case Finish(_, _) => InvSame(s, Apply(s, step, addable), addable);
  }

  lemma {:induction false} InvRuns(s: System, steps: seq<Step>, s': System, addable: string -> bool)
    requires Inv(s, addable) && Runs(s, steps, s', addable)
    ensures Inv(s', addable)
    decreases |steps|
  {
    if steps != [] {
      InvStep(s, steps[0], addable);
      InvRuns(Apply(s, steps[0], addable), steps[1..], s', addable);
    }
  }

  /**
   No cron is orphaned. However many callers start, stop and replace, and however their steps mix with
   firings and finished runs: every cron ever started is exactly one of attached, held by exactly one
   caller that is about to stop it, and stopped; the scheduler counts as started exactly while a cron
   is attached, and that cron runs exactly the scheduler's jobs.
   */
  lemma NoCronOrphaned(callers: nat, steps: seq<Step>, s: System, addable: string -> bool)
    requires Runs(Init(callers), steps, s, addable)
    ensures forall c: nat :: c < |s.crons| ==> Owned(s, c)
    ensures s.sched.started <==> exists c: nat :: Attached(s, c)
    ensures forall c: nat :: Attached(s, c) ==>
              && c < |s.crons| && s.crons[c].running
              && s.crons[c].entries == s.sched.jobs && s.sched.jobNames == Names(s.crons[c].entries)
  {
    InvInit(callers, addable);
    InvRuns(Init(callers), steps, s, addable);
    if s.sched.started {
      assert Attached(s, s.sched.cron.value);
    }
    forall c: nat | Attached(s, c) ensures s.crons[c].running {
      assert Owned(s, c);
    }
  }
}
