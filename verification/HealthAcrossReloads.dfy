/**
 scheduler.go and job.go together: the runs that the cron instances fire are the runs that health and
 gauge hear of. Reloads happen in between, as the scheduler's callers make them.
 */
module HealthAcrossReloads {
  import opened Wrappers
  import opened Jobs
  import Scheduling
  import Protocol = SchedulingProtocol
  import Safety = SchedulingSafety
  import Health

  /** Where a run in flight belongs: the cron that fired it, and its job. */
  datatype Owner = Owner(cron: nat, job: Job)

  /** The scheduler and its cron instances, what happened to runs so far, and the runs in flight. */
  datatype Program = Program(system: Protocol.System, events: seq<Health.Event>, owners: map<nat, Owner>)

  datatype Step =
    | Control(step: Protocol.Step)
    | Fire(cron: nat, job: Job, id: nat)
    | Count(id: nat, attempt: Health.Attempt)
    | Finish(id: nat)

  /** Jobs of one name are one job. */
  predicate OneJobPerName(jobs: seq<Job>) {
    forall a, b :: a in jobs && b in jobs && a.name == b.name ==> a == b
  }

  /** A caller's step that keeps to one call at a time, without immediate stops, and hands over job lists like that. */
  predicate Controls(s: Protocol.System, step: Protocol.Step) {
    && Protocol.Enabled(s, step) && Safety.Orderly(s, step) && !step.Fire? && !step.Finish?
    && (step.CallStart? || step.CallReplace? ==> OneJobPerName(step.jobs))
  }

  /** A job is not fired while it is in flight itself; the last thing a run does is to complete. */
  predicate CanStep(p: Program, step: Step) {
    && Health.Possible(p.events)
    && var runs := Health.After(p.events).runs;
       match step
       case Control(step) => Controls(p.system, step)
       case Fire(c, job, id) =>
         Protocol.Enabled(p.system, Protocol.Fire(c, job)) && job !in p.system.crons[c].inFlight && id !in runs
       case Count(id, _) => id in runs && runs[id].Begun?
       case Finish(id) =>
         && id in runs && runs[id].Counted? && id in p.owners
         && Protocol.Enabled(p.system, Protocol.Finish(p.owners[id].cron, p.owners[id].job))
  }

  function TakeStep(p: Program, step: Step, addable: string -> bool): Program
    requires CanStep(p, step)
  {
    match step
    case Control(step) => p.(system := Protocol.Apply(p.system, step, addable))
    case Fire(c, job, id) =>
      Program(Protocol.Apply(p.system, Protocol.Fire(c, job), addable),
              p.events + [Health.Begin(id, job.name)], p.owners[id := Owner(c, job)])
    case Count(id, attempt) => p.(events := p.events + [Health.Count(id, attempt)])
    case Finish(id) =>
      p.(system := Protocol.Apply(p.system, Protocol.Finish(p.owners[id].cron, p.owners[id].job), addable),
         events := p.events + [Health.Complete(id)])
  }

  predicate Runs(p: Program, steps: seq<Step>, p': Program, addable: string -> bool)
    decreases |steps|
  {
    if steps == [] then p' == p
    else CanStep(p, steps[0]) && Runs(TakeStep(p, steps[0], addable), steps[1..], p', addable)
  }

  function Start(callers: nat): Program { Program(Protocol.Init(callers), [], map[]) }

  // ----- Job lists ---------------------------------------------------------------------------------

  predicate CallerLists(caller: Protocol.Caller) {
    match caller
    case Idle(_) => true
    case AboutToDetach(prev, new_) => OneJobPerName(prev) && OneJobPerName(new_)
    case Holding(_, after) => after.WaitThenStart? ==> OneJobPerName(after.prev) && OneJobPerName(after.new_)
    case Waiting(_, after) => after.WaitThenStart? ==> OneJobPerName(after.prev) && OneJobPerName(after.new_)
    case AboutToStart(prev, new_) => OneJobPerName(prev) && OneJobPerName(new_)
    case AboutToRestart(prev, _) => OneJobPerName(prev)
  }

  /** Every job list anywhere in the system has one job per name. */
  ghost predicate Lists(s: Protocol.System) {
    && OneJobPerName(s.sched.jobs)
    && (forall c :: 0 <= c < |s.crons| ==> OneJobPerName(s.crons[c].entries))
    && forall i :: 0 <= i < |s.callers| ==> CallerLists(s.callers[i])
  }

  /** The cron instances of `s` are still there in `s'`, with their entries and runs. */
  ghost predicate CronsKept(s: Protocol.System, s': Protocol.System) {
    && |s.crons| <= |s'.crons|
    && forall c :: 0 <= c < |s.crons| ==>
         s'.crons[c].entries == s.crons[c].entries && s'.crons[c].inFlight == s.crons[c].inFlight
  }

  lemma ControlKeeps(s: Protocol.System, step: Protocol.Step, addable: string -> bool)
    requires Lists(s) && Controls(s, step)
    ensures var s' := Protocol.Apply(s, step, addable); Lists(s') && CronsKept(s, s')
  {
    if step.Advance? {
      AdvanceKeeps(s, step.i, addable);
    }
  }

  lemma AdvanceKeeps(s: Protocol.System, i: nat, addable: string -> bool)
    requires Lists(s) && Protocol.Enabled(s, Protocol.Advance(i))
    ensures var s' := Protocol.Continue(s, i, addable); Lists(s') && CronsKept(s, s')
  {
    assert CallerLists(s.callers[i]);
  }

  // ----- Runs of one name do not overlap -----------------------------------------------------------

  /** A run in flight is in flight in the cron that fired it, for a job of its name. */
  predicate InFlightAt(run: Health.Run, o: Owner, crons: seq<Protocol.Instance>) {
    && o.cron < |crons| && o.job.name == Health.NameOf(run)
    && o.job in crons[o.cron].inFlight && o.job in crons[o.cron].entries
  }

  /** Every run has such a place, and no two have the same. */
  ghost predicate Placed(runs: map<nat, Health.Run>, owners: map<nat, Owner>, crons: seq<Protocol.Instance>) {
    && (forall id :: id in runs ==> id in owners && InFlightAt(runs[id], owners[id], crons))
    && forall id, id' :: id in runs && id' in runs && owners[id] == owners[id'] ==> id == id'
  }

  ghost predicate AllSerial(events: seq<Health.Event>)
    requires Health.Possible(events)
  {
    forall name :: Health.Serial(events, name)
  }

  ghost predicate Inv(p: Program, addable: string -> bool) {
    && Safety.OrderlyInv(p.system, addable) && Lists(p.system)
    && Health.Possible(p.events) && AllSerial(p.events)
    && Placed(Health.After(p.events).runs, p.owners, p.system.crons)
  }

  /** A cron that may fire is the only one with runs in flight. */
  lemma OnlyFiring(s: Protocol.System, c: nat, other: nat, addable: string -> bool)
    requires Safety.OrderlyInv(s, addable)
    requires c < |s.crons| && s.crons[c].running && other < |s.crons| && s.crons[other].inFlight != multiset{}
    ensures other == c
  {
    assert !Safety.Drained(s, c) && !Safety.Drained(s, other);
  }

  /** So when a job is fired, no run of its name is in flight. */
  lemma FiredWhenQuiet(p: Program, c: nat, job: Job, id: nat, addable: string -> bool)
    requires Inv(p, addable) && CanStep(p, Fire(c, job, id))
    ensures Health.Quiet(Health.After(p.events), job.name)
  {
    var s := Health.After(p.events);
    assert OneJobPerName(p.system.crons[c].entries);
    forall other ensures !Health.Runs(s, other, job.name) {
      if Health.Runs(s, other, job.name) {
        assert InFlightAt(s.runs[other], p.owners[other], p.system.crons);
        OnlyFiring(p.system, c, p.owners[other].cron, addable);
        assert false;
      }
    }
  }

  lemma OneMore(events: seq<Health.Event>, e: Health.Event)
    requires Health.Possible(events) && Health.Enabled(Health.After(events), e) && AllSerial(events)
    requires e.Begin? ==> Health.Quiet(Health.After(events), e.name)
    ensures Health.Possible(events + [e]) && Health.After(events + [e]) == Health.Apply(Health.After(events), e)
    ensures AllSerial(events + [e])
  {
    assert (events + [e])[..|events + [e]| - 1] == events;
    forall name ensures Health.Serial(events + [e], name) {
      assert Health.Serial(events, name);
    }
  }

  lemma FirePlaced(runs: map<nat, Health.Run>, owners: map<nat, Owner>, crons: seq<Protocol.Instance>, c: nat, job: Job, id: nat)
    requires Placed(runs, owners, crons) && id !in runs
    requires c < |crons| && job in crons[c].entries && job !in crons[c].inFlight
    ensures Placed(runs[id := Health.Begun(job.name)], owners[id := Owner(c, job)],
                   crons[c := crons[c].(inFlight := crons[c].inFlight + multiset{job})])
  {
    forall other | other in runs ensures owners[other] != Owner(c, job) {
      assert InFlightAt(runs[other], owners[other], crons);
    }
  }

  lemma CountPlaced(runs: map<nat, Health.Run>, owners: map<nat, Owner>, crons: seq<Protocol.Instance>, id: nat, run: Health.Run)
    requires Placed(runs, owners, crons) && id in runs && Health.NameOf(run) == Health.NameOf(runs[id])
    ensures Placed(runs[id := run], owners, crons)
  {
    assert InFlightAt(runs[id], owners[id], crons);
  }

  /** A finished run takes only its own place. */
  lemma FinishPlaced(runs: map<nat, Health.Run>, owners: map<nat, Owner>, crons: seq<Protocol.Instance>, id: nat, o: Owner)
    requires Placed(runs, owners, crons) && id in runs && o == owners[id] && o.cron < |crons|
    ensures Placed(runs - {id}, owners, crons[o.cron := crons[o.cron].(inFlight := crons[o.cron].inFlight - multiset{o.job})])
  {
    forall other | other in runs && other != id
      ensures InFlightAt(runs[other], owners[other], crons[o.cron := crons[o.cron].(inFlight := crons[o.cron].inFlight - multiset{o.job})])
    {
      assert owners[other] != o && InFlightAt(runs[other], owners[other], crons);
    }
  }

  lemma KeptPlaced(runs: map<nat, Health.Run>, owners: map<nat, Owner>, s: Protocol.System, s': Protocol.System)
    requires Placed(runs, owners, s.crons) && CronsKept(s, s')
    ensures Placed(runs, owners, s'.crons)
  {
    forall id | id in runs ensures InFlightAt(runs[id], owners[id], s'.crons) {
      assert InFlightAt(runs[id], owners[id], s.crons);
    }
  }

  lemma ControlStep(p: Program, step: Protocol.Step, addable: string -> bool)
    requires Inv(p, addable) && CanStep(p, Control(step))
    ensures Inv(TakeStep(p, Control(step), addable), addable)
  {
    Safety.OrderlyStep(p.system, step, addable);
    ControlKeeps(p.system, step, addable);
    KeptPlaced(Health.After(p.events).runs, p.owners, p.system, Protocol.Apply(p.system, step, addable));
  }

  /** Firings and finished runs leave the job lists alone. */
  lemma FlightKeepsLists(s: Protocol.System, step: Protocol.Step, addable: string -> bool)
    requires Lists(s) && Protocol.Enabled(s, step) && (step.Fire? || step.Finish?)
    ensures Lists(Protocol.Apply(s, step, addable))
  {
  }

  lemma FireStep(p: Program, c: nat, job: Job, id: nat, addable: string -> bool)
    requires Inv(p, addable) && CanStep(p, Fire(c, job, id))
    ensures Inv(TakeStep(p, Fire(c, job, id), addable), addable)
  {
    FiredWhenQuiet(p, c, job, id, addable);
    FirePlaced(Health.After(p.events).runs, p.owners, p.system.crons, c, job, id);
    OneMore(p.events, Health.Begin(id, job.name));
    Safety.OrderlyFlight(p.system, Protocol.Fire(c, job), addable);
    FlightKeepsLists(p.system, Protocol.Fire(c, job), addable);
  }

  lemma CountStep(p: Program, id: nat, attempt: Health.Attempt, addable: string -> bool)
    requires Inv(p, addable) && CanStep(p, Count(id, attempt))
    ensures Inv(TakeStep(p, Count(id, attempt), addable), addable)
  {
    var runs := Health.After(p.events).runs;
    OneMore(p.events, Health.Count(id, attempt));
    CountPlaced(runs, p.owners, p.system.crons, id, Health.Counted(Health.ResultOf(runs[id].name, attempt)));
  }

  lemma FinishStep(p: Program, id: nat, addable: string -> bool)
    requires Inv(p, addable) && CanStep(p, Finish(id))
    ensures Inv(TakeStep(p, Finish(id), addable), addable)
  {
    var o := p.owners[id];
    OneMore(p.events, Health.Complete(id));
    FinishPlaced(Health.After(p.events).runs, p.owners, p.system.crons, id, o);
    Safety.OrderlyFlight(p.system, Protocol.Finish(o.cron, o.job), addable);
    FlightKeepsLists(p.system, Protocol.Finish(o.cron, o.job), addable);
  }

  lemma {:induction false} InvRuns(p: Program, steps: seq<Step>, p': Program, addable: string -> bool)
    requires Inv(p, addable) && Runs(p, steps, p', addable)
    ensures Inv(p', addable)
    decreases |steps|
  {
    if steps != [] {
      match steps[0] {
        case Control(step) => ControlStep(p, step, addable);
        case Fire(c, job, id) => FireStep(p, c, job, id, addable);
        case Count(id, attempt) => CountStep(p, id, attempt, addable);
        case Finish(id) => FinishStep(p, id, addable);
      }
      InvRuns(TakeStep(p, steps[0], addable), steps[1..], p', addable);
    }
  }

  /**
   Gauge and health agree with the history across reloads. Callers start, stop and reload, one call at a
   time, without immediate stops and with one job per name in every list; cron instances fire jobs that
   are not in flight themselves; runs are counted and completed at any time. Then runs of one name never
   overlap, even when a reload has changed the job behind the name, and whenever none is in flight the
   gauge is the number of failures since the last success, and the status is "not found" before the first
   completed run, "unavailable" exactly while the gauge is positive, and "ok" otherwise.
   */
  lemma HealthAgreesAcrossReloads(callers: nat, steps: seq<Step>, p: Program, name: string, addable: string -> bool)
    requires Runs(Start(callers), steps, p, addable)
    ensures Health.Possible(p.events) && Health.Serial(p.events, name)
    ensures var s := Health.After(p.events);
            Health.Quiet(s, name) ==>
              && Health.Gauge(s.gauges, name) == Health.TrailingFailures(Health.CompletedRuns(p.events, name))
              && Health.ReadHealth(s.results, name).status ==
                 if Health.CompletedResults(p.events, name) == [] then 404
                 else if Health.TrailingFailures(Health.CompletedRuns(p.events, name)) > 0 then 503
                 else 200
  {
    Protocol.InvInit(callers, addable);
    assert Inv(Start(callers), addable);
    InvRuns(Start(callers), steps, p, addable);
    assert Health.Serial(p.events, name);
    if Health.Quiet(Health.After(p.events), name) {
      Health.HealthAgrees(p.events, name);
    }
  }
}
