/** What whole runs of the scheduler keep: no overlap of old and new runs, all-or-previous reloads, stops that end. */
module SchedulingSafety {
  import opened Wrappers
  import opened Jobs
  import opened Scheduling
  import opened SchedulingProtocol

  // ----- One call at a time ------------------------------------------------------------------------

  predicate AllIdle(s: System) { forall i :: 0 <= i < |s.callers| ==> s.callers[i].Idle? }

  /** What a single controller that never stops at once does: it calls only when no call is under way. */
  predicate Orderly(s: System, step: Step) { (IsCall(step) ==> AllIdle(s)) && !step.CallStopNow? }

  predicate OrderlyRuns(s: System, steps: seq<Step>, s': System, addable: string -> bool)
    decreases |steps|
  {
    if steps == [] then s' == s
    else
      && Enabled(s, steps[0]) && Orderly(s, steps[0])
      && OrderlyRuns(Apply(s, steps[0], addable), steps[1..], s', addable)
  }

  /** With one caller the order is automatic: calls of one controller never overlap. */
  lemma {:induction false} SingleController(s: System, steps: seq<Step>, s': System, addable: string -> bool)
    requires |s.callers| == 1 && Runs(s, steps, s', addable)
    requires forall step :: step in steps ==> !step.CallStopNow?
    ensures OrderlyRuns(s, steps, s', addable)
    decreases |steps|
  {
    if steps != [] {
      assert steps[0] in steps;
      SingleController(Apply(s, steps[0], addable), steps[1..], s', addable);
    }
  }

  /** Nothing of `c` is in flight and nothing of it will start. */
  predicate Drained(s: System, c: nat) { Stopped(s, c) && s.crons[c].inFlight == multiset{} }

  predicate Ending(caller: Caller, c: nat) { (caller.Holding? || caller.Waiting?) && caller.cron == c }

  predicate OneBusy(s: System) {
    forall i, k :: 0 <= i < |s.callers| && 0 <= k < |s.callers| && !s.callers[i].Idle? && !s.callers[k].Idle? ==> i == k
  }

  /** A caller past its detach step runs alone, ends only the newest cron, and never one it will not wait for. */
  predicate OrderlyCaller(s: System, caller: Caller) {
    && (caller.Holding? || caller.Waiting? ==> !caller.after.Return? && caller.cron == |s.crons| - 1)
    && (caller.Idle? || caller.AboutToDetach? || !s.sched.started)
  }

  /** Somebody has `c`: the scheduler, or a caller that is ending it. */
  ghost predicate InHand(s: System, c: nat) {
    Attached(s, c) || exists i: nat :: i < |s.callers| && Ending(s.callers[i], c)
  }

  /** The newest cron may be at work; every earlier one is drained, and so is the newest once nobody has it. */
  ghost predicate OrderlyInv(s: System, addable: string -> bool) {
    && Inv(s, addable) && OneBusy(s)
    && (forall i :: 0 <= i < |s.callers| ==> OrderlyCaller(s, s.callers[i]))
    && (forall c: nat :: c < |s.crons| ==> Drained(s, c) || (c == |s.crons| - 1 && InHand(s, c)))
  }

  lemma OrderlyFlight(s: System, step: Step, addable: string -> bool)
    requires OrderlyInv(s, addable) && Enabled(s, step) && (step.Fire? || step.Finish?)
    ensures OrderlyInv(Apply(s, step, addable), addable)
  {
    InvStep(s, step, addable);
    var s' := Apply(s, step, addable);
    forall c: nat | c < |s'.crons| ensures Drained(s', c) || (c == |s'.crons| - 1 && InHand(s', c)) {
      if !Drained(s, c) {
        assert Attached(s', c) <==> Attached(s, c);
      }
    }
  }

  /** Nobody has a cron: all are drained. */
  lemma AllDrained(s: System, addable: string -> bool)
    requires OrderlyInv(s, addable) && !s.sched.started
    requires forall i :: 0 <= i < |s.callers| ==> !s.callers[i].Holding? && !s.callers[i].Waiting?
    ensures forall c: nat :: c < |s.crons| ==> Drained(s, c)
  {
    forall c: nat | c < |s.crons| ensures Drained(s, c) {
      assert !InHand(s, c);
    }
  }

  /** Only caller `i` may be busy, and it moves to a place where it has no cron. */
  lemma OrderlyMove(s: System, i: nat, caller: Caller, addable: string -> bool)
    requires OrderlyInv(s, addable) && i < |s.callers| && Inv(At(s, i, caller), addable)
    requires forall k :: 0 <= k < |s.callers| && k != i ==> s.callers[k].Idle?
    requires !caller.Holding? && !caller.Waiting? && (caller.Idle? || caller.AboutToDetach? || !s.sched.started)
    requires forall c: nat :: c < |s.crons| && Ending(s.callers[i], c) ==> Drained(s, c)
    ensures OrderlyInv(At(s, i, caller), addable)
  {
    var s' := At(s, i, caller);
    forall c: nat | c < |s'.crons| ensures Drained(s', c) || (c == |s'.crons| - 1 && InHand(s', c)) {
      if !Drained(s, c) {
        assert InHand(s, c) && !Ending(s.callers[i], c);
        assert Attached(s', c);
      }
    }
  }

  /** Caller `i` starts a new cron when all earlier ones are drained. */
  lemma OrderlyStart(s: System, i: nat, jobs: seq<Job>, next: Caller, addable: string -> bool)
    requires OrderlyInv(s, addable) && i < |s.callers| && next.Idle?
    requires forall k :: 0 <= k < |s.callers| && k != i ==> s.callers[k].Idle?
    requires !s.callers[i].Holding? && !s.callers[i].Waiting? && !s.sched.started
    requires Inv(At(StartNew(s, jobs), i, next), addable)
    ensures OrderlyInv(At(StartNew(s, jobs), i, next), addable)
  {
    AllDrained(s, addable);
    var s' := At(StartNew(s, jobs), i, next);
    forall c: nat | c < |s'.crons| ensures Drained(s', c) || (c == |s'.crons| - 1 && InHand(s', c)) {
      if c < |s.crons| {
        assert Drained(s, c);
      } else {
        assert Attached(s', c);
      }
    }
  }

  /** Caller `i` detaches the newest cron, if there is one to detach. */
  lemma OrderlyDetach(s: System, i: nat, after: After, addable: string -> bool)
    requires OrderlyInv(s, addable) && i < |s.callers| && !after.Return?
    requires forall k :: 0 <= k < |s.callers| && k != i ==> s.callers[k].Idle?
    requires s.callers[i].Idle? || s.callers[i].AboutToDetach?
    requires Inv(Detach(s, i, after), addable)
    ensures OrderlyInv(Detach(s, i, after), addable)
  {
    var s' := Detach(s, i, after);
    forall c: nat | c < |s'.crons| ensures Drained(s', c) || (c == |s'.crons| - 1 && InHand(s', c)) {
      if !Drained(s, c) {
        assert Attached(s, c);
        assert Ending(s'.callers[i], c);
      }
    }
    if s.sched.cron.Some? {
      assert Attached(s, s.sched.cron.value) && Owned(s, s.sched.cron.value);
      assert !Drained(s, s.sched.cron.value);
    }
  }

  /** Caller `i` stops the cron it holds and goes on to wait for it. */
  lemma OrderlyStop(s: System, i: nat, addable: string -> bool)
    requires OrderlyInv(s, addable) && Enabled(s, Advance(i)) && s.callers[i].Holding?
    requires Inv(Continue(s, i, addable), addable)
    ensures OrderlyInv(Continue(s, i, addable), addable)
  {
    var s' := Continue(s, i, addable);
    assert OrderlyCaller(s, s.callers[i]);
    forall c: nat | c < |s'.crons| ensures Drained(s', c) || (c == |s'.crons| - 1 && InHand(s', c)) {
      if !Drained(s, c) {
        assert Ending(s'.callers[i], c);
      }
    }
  }

  lemma OrderlyAdvance(s: System, i: nat, addable: string -> bool)
    requires OrderlyInv(s, addable) && Enabled(s, Advance(i))
    ensures OrderlyInv(Continue(s, i, addable), addable)
  {
    InvContinue(s, i, addable);
    assert OrderlyCaller(s, s.callers[i]) && CallerOk(s, s.callers[i], addable);
    match s.callers[i]
    case AboutToDetach(prev, new_) => OrderlyDetach(s, i, WaitThenStart(prev, new_), addable);
    case Holding(_, _) => OrderlyStop(s, i, addable);
    case Waiting(_, after) => OrderlyMove(s, i, Resume(after), addable);
    case AboutToStart(prev, new_) =>
      var err := StartErrorOf(s, new_, addable);
      if err.None? {
        OrderlyStart(s, i, new_, Idle(ReplaceDone(Replaced)), addable);
      } else {
        OrderlyMove(s, i, Continue(s, i, addable).callers[i], addable);
      }
    case AboutToRestart(prev, original) =>
      OrderlyStart(s, i, prev, Idle(ReplaceDone(Recovered(original))), addable);
  }

  lemma OrderlyStep(s: System, step: Step, addable: string -> bool)
    requires OrderlyInv(s, addable) && Enabled(s, step) && Orderly(s, step)
    ensures OrderlyInv(Apply(s, step, addable), addable)
  {
    InvStep(s, step, addable);
    match step
    case CallStart(i, jobs) =>
      var err := StartErrorOf(s, jobs, addable);
      if err.None? {
        OrderlyStart(s, i, jobs, Idle(StartDone(err)), addable);
      } else {
        OrderlyMove(s, i, Idle(StartDone(err)), addable);
      }
    case CallStopGraceful(i) => OrderlyDetach(s, i, WaitThenReturn, addable);
    case CallReplace(i, jobs) => OrderlyMove(s, i, AboutToDetach(s.sched.jobs, jobs), addable);
    case Advance(i) => OrderlyAdvance(s, i, addable);
    case Fire(_, _) => OrderlyFlight(s, step, addable);
    case Finish(_, _) => OrderlyFlight(s, step, addable);
  }

  lemma {:induction false} OrderlyRunsKeep(s: System, steps: seq<Step>, s': System, addable: string -> bool)
    requires OrderlyInv(s, addable) && OrderlyRuns(s, steps, s', addable)
    ensures OrderlyInv(s', addable)
    decreases |steps|
  {
    if steps != [] {
      OrderlyStep(s, steps[0], addable);
      OrderlyRunsKeep(Apply(s, steps[0], addable), steps[1..], s', addable);
    }
  }

  /**
   No overlap across reloads: with calls made one at a time and no immediate stop, whatever is in flight
   belongs to the newest cron, in every interleaving with firings and finished runs, failed reloads
   and restarts included.
   */
  lemma NoOverlap(callers: nat, steps: seq<Step>, s: System, addable: string -> bool)
    requires OrderlyRuns(Init(callers), steps, s, addable)
    ensures forall c: nat :: c < |s.crons| - 1 ==> s.crons[c].inFlight == multiset{} && !s.crons[c].running
    ensures !Overlaps(s)
  {
    InvInit(callers, addable);
    OrderlyRunsKeep(Init(callers), steps, s, addable);
    NewestOnly(s, addable);
  }

  lemma NewestOnly(s: System, addable: string -> bool)
    requires OrderlyInv(s, addable)
    ensures forall c: nat :: c < |s.crons| - 1 ==> s.crons[c].inFlight == multiset{} && !s.crons[c].running
    ensures !Overlaps(s)
  {
    forall c: nat | c < |s.crons| - 1 ensures s.crons[c].inFlight == multiset{} && !s.crons[c].running {
      assert Drained(s, c);
    }
  }

  /** Runs of two different crons are in flight at once. */
  ghost predicate Overlaps(s: System) {
    exists c: nat, d: nat :: c < d < |s.crons| && s.crons[c].inFlight != multiset{} && s.crons[d].inFlight != multiset{}
  }

  // ----- Where these hypotheses are needed ---------------------------------------------------------

  /** One more step at the end of a run. */
  lemma {:induction false} Then(s0: System, steps: seq<Step>, s: System, step: Step, addable: string -> bool)
    returns (more: seq<Step>, s': System)
    requires Runs(s0, steps, s, addable) && Enabled(s, step)
    ensures more == steps + [step] && s' == Apply(s, step, addable) && Runs(s0, more, s', addable)
    decreases |steps|
  {
    more, s' := steps + [step], Apply(s, step, addable);
    if steps == [] {
      assert more[1..] == [];
    } else {
      var rest, _ := Then(Apply(s0, steps[0], addable), steps[1..], s, step, addable);
      assert more[1..] == rest;
    }
  }

  /** One caller that stops at once and starts again overlaps, whatever the job. */
  lemma StopNowOverlaps(j: Job, addable: string -> bool) returns (steps: seq<Step>, s: System)
    requires addable(j.schedule)
    ensures Runs(Init(1), steps, s, addable) && Overlaps(s)
  {
    var s0 := Init(1);
    steps, s := Then(s0, [], s0, CallStart(0, [j]), addable);
    steps, s := Then(s0, steps, s, Fire(0, j), addable);
    steps, s := Then(s0, steps, s, CallStopNow(0), addable);
    steps, s := Then(s0, steps, s, Advance(0), addable);
    steps, s := Then(s0, steps, s, CallStart(0, [j]), addable);
    steps, s := Then(s0, steps, s, Fire(1, j), addable);
    assert s.crons[0].inFlight == multiset{j} && s.crons[1].inFlight == multiset{j};
  }

  /** So do two callers whose calls mix, even if every stop is graceful. */
  lemma TwoCallersOverlap(j: Job, addable: string -> bool) returns (steps: seq<Step>, s: System)
    requires addable(j.schedule)
    ensures Runs(Init(2), steps, s, addable) && Overlaps(s)
    ensures forall step :: step in steps ==> !step.CallStopNow?
  {
    var s0 := Init(2);
    steps, s := Then(s0, [], s0, CallStart(0, [j]), addable);
    steps, s := Then(s0, steps, s, Fire(0, j), addable);
    steps, s := Then(s0, steps, s, CallStopGraceful(0), addable);
    steps, s := Then(s0, steps, s, CallStart(1, [j]), addable);
    steps, s := Then(s0, steps, s, Fire(1, j), addable);
    assert s.crons[0].inFlight == multiset{j} && s.crons[1].inFlight == multiset{j};
  }

  /** And with two callers a reload can end with the restart of the previous jobs refused. */
  lemma TwoCallersRestartFails(j: Job, bad: Job, addable: string -> bool) returns (steps: seq<Step>, s: System)
    requires addable(j.schedule) && !addable(bad.schedule)
    ensures Runs(Init(2), steps, s, addable)
    ensures |s.callers| == 2 && s.callers[0] == Idle(ReplaceDone(RestartFailed(AlreadyStarted, AlreadyStarted)))
  {
    var s0 := Init(2);
    steps, s := Then(s0, [], s0, CallStart(0, [j]), addable);
    steps, s := Then(s0, steps, s, CallReplace(0, [bad]), addable);
    steps, s := Then(s0, steps, s, Advance(0), addable);
    steps, s := Then(s0, steps, s, CallStart(1, [j]), addable);
    steps, s := Then(s0, steps, s, Advance(0), addable);
    steps, s := Then(s0, steps, s, Advance(0), addable);
    steps, s := Then(s0, steps, s, Advance(0), addable);
    steps, s := Then(s0, steps, s, Advance(0), addable);
  }

  // ----- A reload is all or previous ---------------------------------------------------------------

  /** How a reload from `prev` to `new_` may end. */
  ghost predicate Settled(s: System, prev: seq<Job>, new_: seq<Job>, out: ReplaceOutcome, addable: string -> bool) {
    match out
    case Replaced => AllAddable(new_, addable) && s.sched.started && s.sched.jobs == new_
    case Recovered(error) =>
      && prev != [] && s.sched.started && s.sched.jobs == prev
      && !AllAddable(new_, addable) && Refused(new_, error, addable)
    case NoPrevious(error) =>
      && prev == [] && !s.sched.started
      && !AllAddable(new_, addable) && Refused(new_, error, addable)
    case RestartFailed(_, _) => false
  }

  /** The error names the first job that cannot be scheduled. */
  ghost predicate Refused(jobs: seq<Job>, error: StartError, addable: string -> bool) {
    error.Unschedulable? && exists k: nat :: FirstRefused(jobs, addable, k) && error.job == jobs[k]
  }

  /** Caller `i` is on its way from `prev` to `new_` and nobody else interferes. */
  ghost predicate Reloading(s: System, i: nat, prev: seq<Job>, new_: seq<Job>, addable: string -> bool) {
    && Inv(s, addable) && i < |s.callers|
    && (forall k :: 0 <= k < |s.callers| && k != i ==> s.callers[k].Idle?)
    && match s.callers[i]
       case Idle(last) => last.ReplaceDone? && Settled(s, prev, new_, last.outcome, addable)
       case AboutToDetach(p, n) => p == prev == s.sched.jobs && n == new_
       case Holding(_, after) => after == WaitThenStart(prev, new_) && !s.sched.started
       case Waiting(_, after) => after == WaitThenStart(prev, new_) && !s.sched.started
       case AboutToStart(p, n) => p == prev && n == new_ && !s.sched.started
       case AboutToRestart(p, error) =>
         p == prev != [] && !s.sched.started && !AllAddable(new_, addable) && Refused(new_, error, addable)
  }

  lemma ReloadStep(s: System, step: Step, i: nat, prev: seq<Job>, new_: seq<Job>, addable: string -> bool)
    requires Reloading(s, i, prev, new_, addable) && Enabled(s, step) && !IsCall(step)
    ensures Reloading(Apply(s, step, addable), i, prev, new_, addable)
  {
    InvStep(s, step, addable);
    if step.Advance? {
      assert step.i == i;
      assert CallerOk(s, s.callers[i], addable);
    }
  }

  lemma {:induction false} ReloadRuns(s: System, steps: seq<Step>, s': System, i: nat, prev: seq<Job>, new_: seq<Job>,
                                      addable: string -> bool)
    requires Reloading(s, i, prev, new_, addable) && Runs(s, steps, s', addable)
    requires forall step :: step in steps ==> !IsCall(step)
    ensures Reloading(s', i, prev, new_, addable)
    decreases |steps|
  {
    if steps != [] {
      assert steps[0] in steps;
      ReloadStep(s, steps[0], i, prev, new_, addable);
      ReloadRuns(Apply(s, steps[0], addable), steps[1..], s', i, prev, new_, addable);
    }
  }

  /**
   All or previous, in every interleaving: when the reload of one controller has returned, the scheduler
   runs exactly the new jobs if all of them can be scheduled, else exactly the previous ones, else nothing
   because there were none; the error names the first job refused, and a refused restart is out of reach.
   */
  lemma ReplaceAllOrPrevious(s: System, i: nat, new_: seq<Job>, steps: seq<Step>, s': System, addable: string -> bool)
    requires Inv(s, addable) && AllIdle(s) && Enabled(s, CallReplace(i, new_))
    requires Runs(Apply(s, CallReplace(i, new_), addable), steps, s', addable)
    requires forall step :: step in steps ==> !IsCall(step)
    requires i < |s'.callers| && s'.callers[i].Idle?
    ensures var last := s'.callers[i].last;
            last.ReplaceDone? && Settled(s', s.sched.jobs, new_, last.outcome, addable)
    ensures forall c: nat :: Attached(s', c) ==> c < |s'.crons| && s'.crons[c].running && s'.crons[c].entries == s'.sched.jobs
  {
    var s1 := Apply(s, CallReplace(i, new_), addable);
    InvStep(s, CallReplace(i, new_), addable);
    ReloadRuns(s1, steps, s', i, s.sched.jobs, new_, addable);
    forall c: nat | Attached(s', c) ensures s'.crons[c].running {
      assert Owned(s', c);
    }
  }

  // ----- The signal loop ---------------------------------------------------------------------------

  /** The jobs of the last reload in `steps`. */
  function LastReload(steps: seq<Step>, initial: seq<Job>): seq<Job> {
    if steps == [] then initial
    else LastReload(steps[1..], if steps[0].CallReplace? then steps[0].jobs else initial)
  }

  /** What the signal loop does until it stops: it reloads, with jobs that can be scheduled, and nothing else. */
  predicate OnlyReloads(steps: seq<Step>, addable: string -> bool) {
    forall step :: step in steps && IsCall(step) ==> step.CallReplace? && AllAddable(step.jobs, addable)
  }

  /** One controller serves `jobs`, or is on its way to them; it is never about to restart old ones. */
  ghost predicate Serving(s: System, jobs: seq<Job>, addable: string -> bool) {
    && Inv(s, addable) && |s.callers| == 1 && AllAddable(jobs, addable)
    && match s.callers[0]
       case Idle(_) => s.sched.started && s.sched.jobs == jobs
       case AboutToDetach(_, n) => n == jobs
       case Holding(_, after) => after.WaitThenStart? && after.new_ == jobs && !s.sched.started
       case Waiting(_, after) => after.WaitThenStart? && after.new_ == jobs && !s.sched.started
       case AboutToStart(_, n) => n == jobs && !s.sched.started
       case AboutToRestart(_, _) => false
  }

  lemma ServingStep(s: System, step: Step, jobs: seq<Job>, addable: string -> bool)
    requires Serving(s, jobs, addable) && Enabled(s, step)
    requires IsCall(step) ==> step.CallReplace? && AllAddable(step.jobs, addable)
    ensures Serving(Apply(s, step, addable), if step.CallReplace? then step.jobs else jobs, addable)
  {
    InvStep(s, step, addable);
    if step.Advance? {
      assert step.i == 0;
    }
  }

  /**
   The signal-loop invariant with firings and finishing runs in between: whenever the controller is back
   in its loop, the scheduler is started with exactly the jobs of the last reload; the fallback that
   restarts the previous jobs is never reached.
   */
  lemma {:induction false} ReloadsServe(s: System, steps: seq<Step>, s': System, initial: seq<Job>, addable: string -> bool)
    requires Serving(s, initial, addable) && OnlyReloads(steps, addable) && Runs(s, steps, s', addable)
    ensures |s'.callers| == 1 && !s'.callers[0].AboutToRestart?
    ensures s'.callers[0].Idle? ==> s'.sched.started && s'.sched.jobs == LastReload(steps, initial)
    decreases |steps|
  {
    if steps != [] {
      assert steps[0] in steps;
      ServingStep(s, steps[0], initial, addable);
      ReloadsServe(Apply(s, steps[0], addable), steps[1..], s',
                   if steps[0].CallReplace? then steps[0].jobs else initial, addable);
    }
  }

  /** That is where `main` stands once it has started the scheduler with the jobs it first read. */
  lemma MainServes(initial: seq<Job>, steps: seq<Step>, s: System, addable: string -> bool)
    requires AllAddable(initial, addable) && OnlyReloads(steps, addable)
    requires Runs(Apply(Init(1), CallStart(0, initial), addable), steps, s, addable)
    ensures |s.callers| == 1 && !s.callers[0].AboutToRestart?
    ensures s.callers[0].Idle? ==> s.sched.started && s.sched.jobs == LastReload(steps, initial)
    ensures !Overlaps(s)
  {
    var s0, call := Init(1), CallStart(0, initial);
    InvInit(1, addable);
    InvStep(s0, call, addable);
    ReloadsServe(Apply(s0, call, addable), steps, s, initial, addable);
    SingleController(Apply(s0, call, addable), steps, s, addable);
    OrderlyStep(s0, call, addable);
    OrderlyRunsKeep(Apply(s0, call, addable), steps, s, addable);
    NewestOnly(s, addable);
  }

  // ----- A graceful stop ends ----------------------------------------------------------------------

  function Finishes(steps: seq<Step>, c: nat): nat {
    if steps == [] then 0
    else (if steps[0].Finish? && steps[0].c == c then 1 else 0) + Finishes(steps[1..], c)
  }

  /**
   Once a cron is stopped it never starts another run, in any interleaving with any number of callers:
   what is in flight goes down by one with each finished run and never up.
   */
  lemma {:induction false} StopDrains(s: System, steps: seq<Step>, s': System, c: nat, addable: string -> bool)
    requires Inv(s, addable) && Stopped(s, c) && Runs(s, steps, s', addable)
    ensures Stopped(s', c) && |s'.crons[c].inFlight| + Finishes(steps, c) == |s.crons[c].inFlight|
    ensures forall step :: step in steps ==> !(step.Fire? && step.c == c)
    decreases |steps|
  {
    if steps != [] {
      var s1 := Apply(s, steps[0], addable);
      InvStep(s, steps[0], addable);
      StopDrainsStep(s, steps[0], c, addable);
      StopDrains(s1, steps[1..], s', c, addable);
      assert steps == [steps[0]] + steps[1..];
    }
  }

  lemma StopDrainsStep(s: System, step: Step, c: nat, addable: string -> bool)
    requires Inv(s, addable) && Stopped(s, c) && Enabled(s, step)
    ensures Stopped(Apply(s, step, addable), c) && !(step.Fire? && step.c == c)
    ensures |Apply(s, step, addable).crons[c].inFlight| + (if step.Finish? && step.c == c then 1 else 0) == |s.crons[c].inFlight|
  {
  }

  /**
   The wait of a graceful stop ends after exactly as many finished runs as were in flight when the cron
   was stopped; until then some run of it can still finish.
   */
  lemma WaitEnds(s: System, steps: seq<Step>, s': System, i: nat, addable: string -> bool)
    requires Inv(s, addable) && i < |s.callers| && s.callers[i].Waiting?
    requires Runs(s, steps, s', addable) && i < |s'.callers| && s'.callers[i] == s.callers[i]
    ensures var c := s.callers[i].cron;
            && c < |s.crons| && Finishes(steps, c) <= |s.crons[c].inFlight|
            && (Enabled(s', Advance(i)) <==> Finishes(steps, c) == |s.crons[c].inFlight|)
            && (!Enabled(s', Advance(i)) ==> exists job :: Enabled(s', Finish(c, job)))
  {
    var c := s.callers[i].cron;
    assert CallerOk(s, s.callers[i], addable);
    StopDrains(s, steps, s', c, addable);
    if s'.crons[c].inFlight != multiset{} {
      var job :| job in s'.crons[c].inFlight;
      assert Enabled(s', Finish(c, job));
    }
  }
}
