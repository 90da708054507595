/** scheduler.go: a scheduler and the cron instance it manages, as one caller sees them. */
module Scheduling {
  import opened Wrappers
  import opened Jobs

  // ----- The two critical sections -----------------------------------------------------------------

  /** The scheduler's fields; `C` identifies a cron instance. */
  datatype State<+C> = State(cron: Option<C>, jobs: seq<Job>, jobNames: seq<string>, started: bool)

  datatype StartError = AlreadyStarted | Unschedulable(job: Job)

  function Names(jobs: seq<Job>): seq<string> {
    seq(|jobs|, i requires 0 <= i < |jobs| => jobs[i].name)
  }

  /** `addable` says which schedules `cron.AddJob` takes. */
  predicate AllAddable(jobs: seq<Job>, addable: string -> bool) {
    forall j :: j in jobs ==> addable(j.schedule)
  }

  /** `k` is the first job that cannot be scheduled. */
  predicate FirstRefused(jobs: seq<Job>, addable: string -> bool, k: nat) {
    k < |jobs| && !addable(jobs[k].schedule) && AllAddable(jobs[..k], addable)
  }

  /** Under the lock, `Start` fails on a started scheduler or at the first job that cannot be scheduled. */
  ghost predicate StartFails<C>(s: State<C>, jobs: seq<Job>, addable: string -> bool, err: StartError) {
    match err
    case AlreadyStarted => s.started
    case Unschedulable(job) => !s.started && exists k: nat :: FirstRefused(jobs, addable, k) && job == jobs[k]
  }

  function Started<C>(c: C, jobs: seq<Job>): State<C> { State(Some(c), jobs, Names(jobs), true) }

  /** Under the lock, both kinds of stop only detach the cron; the job list and its names stay. */
  function Detached<C>(s: State<C>): State<C> { s.(cron := None, started := false) }

  /** What every critical section keeps: the flag tells whether a cron is attached, and the names match the jobs. */
  predicate Consistent<C>(s: State<C>, addable: string -> bool) {
    && (s.started <==> s.cron.Some?)
    && s.jobNames == Names(s.jobs)
    && AllAddable(s.jobs, addable)
  }

  /** `Start` succeeds exactly if none of its errors applies. */
  lemma StartFailsOrNot<C>(s: State<C>, jobs: seq<Job>, addable: string -> bool)
    ensures (exists err :: StartFails(s, jobs, addable, err)) <==> s.started || !AllAddable(jobs, addable)
  {
    if s.started {
      assert StartFails(s, jobs, addable, AlreadyStarted);
    } else if !AllAddable(jobs, addable) {
      var k := FindRefused(jobs, addable);
      assert StartFails(s, jobs, addable, Unschedulable(jobs[k]));
    }
  }

  lemma {:induction false} FindRefused(jobs: seq<Job>, addable: string -> bool) returns (k: nat)
    requires !AllAddable(jobs, addable)
    ensures FirstRefused(jobs, addable, k)
    decreases |jobs|
  {
    var front := jobs[..|jobs| - 1];
    if AllAddable(front, addable) {
      k := |front|;
    } else {
      k := FindRefused(front, addable);
      assert front[..k] == jobs[..k];
    }
  }

  // ----- A cron instance ---------------------------------------------------------------------------

  /** A cron instance: its entries, and the runs it has started that have not finished. */
  class Cron {
    var entries: seq<Job>
    var running: bool
    var inFlight: multiset<Job>

    constructor ()
      ensures entries == [] && !running && inFlight == multiset{}
    {
      entries, running, inFlight := [], false, multiset{};
    }

    method AddJob(job: Job, addable: string -> bool) returns (ok: bool)
      modifies `entries
      ensures ok <==> addable(job.schedule)
      ensures entries == if ok then old(entries) + [job] else old(entries)
    {
      ok := addable(job.schedule);
      if ok {
        entries := entries + [job];
      }
    }

    method Start()
      modifies `running
      ensures running
    {
      running := true;
    }

    method Stop()
      modifies `running
      ensures !running
    {
      running := false;
    }

    /** A scheduled time has come: the job starts in its own thread, whether or not it is already running. */
    method Fire(job: Job)
      requires running && job in entries
      modifies `inFlight
      ensures inFlight == old(inFlight) + multiset{job}
    {
      inFlight := inFlight + multiset{job};
    }

    method Finish(job: Job)
      requires job in inFlight
      modifies `inFlight
      ensures inFlight == old(inFlight) - multiset{job}
    {
      inFlight := inFlight - multiset{job};
    }

    /** `<-ctx.Done()`: runs finish in any order until none is left. */
    method AwaitDone()
      requires !running
      modifies `inFlight
      ensures inFlight == multiset{}
    {
      while inFlight != multiset{}
        decreases |inFlight|
      {
        var job :| job in inFlight;
        Finish(job);
      }
    }
  }

  // ----- The scheduler -----------------------------------------------------------------------------

  datatype ReplaceOutcome =
    | Replaced
    | Recovered(error: StartError)
    | NoPrevious(error: StartError)
    | RestartFailed(error: StartError, original: StartError)

  class Scheduler {
    const addable: string -> bool
    var cron: Cron?
    var jobs: seq<Job>
    var jobNames: seq<string>
    var started: bool

    ghost function Fields(): State<Cron>
      reads this
    {
      State(if cron == null then None else Some(cron), jobs, jobNames, started)
    }

    /** Between calls an attached cron runs exactly the scheduler's jobs. */
    ghost predicate Valid()
      reads this, cron
    {
      Consistent(Fields(), addable) && (cron != null ==> cron.running && cron.entries == jobs)
    }

    constructor (addable: string -> bool)
      ensures Valid() && Fields() == State(None, [], [], false) && this.addable == addable
    {
      this.addable, cron, jobs, jobNames, started := addable, null, [], [], false;
    }

    method Start(newJobs: seq<Job>) returns (err: Option<StartError>)
      requires Valid()
      modifies this
      ensures Valid()
      ensures err.None? <==> !old(started) && AllAddable(newJobs, addable)
      ensures err.None? ==>
                && cron != null && fresh(cron) && Fields() == Started(cron, newJobs)
                && cron.running && cron.entries == newJobs && cron.inFlight == multiset{}
      ensures err.Some? ==> StartFails(old(Fields()), newJobs, addable, err.value) && Fields() == old(Fields())
    {
      if started {
        return Some(AlreadyStarted);
      }
      var c := new Cron();
      var names := [];
      for i := 0 to |newJobs|
        modifies c
        invariant !c.running && c.inFlight == multiset{}
        invariant c.entries == newJobs[..i] && names == Names(newJobs[..i])
        invariant AllAddable(newJobs[..i], addable)
      {
        var ok := c.AddJob(newJobs[i], addable);
        if !ok {
          assert FirstRefused(newJobs, addable, i);
          return Some(Unschedulable(newJobs[i]));
        }
        assert newJobs[..i + 1] == newJobs[..i] + [newJobs[i]];
        names := names + [newJobs[i].name];
      }
      assert newJobs[..|newJobs|] == newJobs;
      c.Start();
      cron, jobs, jobNames, started := c, newJobs, names, true;
      err := None;
    }

    /** Stops scheduling without waiting for what is in flight. */
    method StopNow()
      requires Valid()
      modifies this, cron
      ensures Valid() && Fields() == Detached(old(Fields()))
      ensures cron == null && !started && jobs == old(jobs) && jobNames == old(jobNames)
      ensures old(cron) != null ==>
                !old(cron).running && old(cron).entries == old(cron.entries) && old(cron).inFlight == old(cron.inFlight)
    {
      var c := cron;
      cron, started := null, false;
      if c != null {
        c.Stop();
      }
    }

    /** Stops scheduling and waits: nothing the old cron started is left in flight. */
    method StopGraceful()
      requires Valid()
      modifies this, cron
      ensures Valid() && Fields() == Detached(old(Fields()))
      ensures cron == null && !started && jobs == old(jobs) && jobNames == old(jobNames)
      ensures old(cron) != null ==> !old(cron).running && old(cron).inFlight == multiset{}
    {
      var c := cron;
      cron, started := null, false;
      if c != null {
        c.Stop();
        c.AwaitDone();
      }
    }

    /** The fallback of `ReplaceJobs`. */
    method RestartPrevious(prevJobs: seq<Job>, original: StartError) returns (out: ReplaceOutcome)
      requires Valid()
      modifies this
      ensures Valid()
      ensures if !old(started) && AllAddable(prevJobs, addable)
              then out == Recovered(original) && cron != null && fresh(cron) && cron.inFlight == multiset{}
                   && Fields() == Started(cron, prevJobs)
              else out.RestartFailed? && out.original == original && Fields() == old(Fields())
    {
      var restartErr := Start(prevJobs);
      if restartErr.Some? {
        return RestartFailed(restartErr.value, original);
      }
      out := Recovered(original);
    }

    /**
     All or previous. The new jobs are active exactly if all of them can be scheduled. Otherwise the
     previous job list, if there is one, is scheduled again -- even if the scheduler had been stopped --
     and the restart cannot fail. Either way nothing of the old cron is left in flight.
     */
    method ReplaceJobs(newJobs: seq<Job>) returns (out: ReplaceOutcome)
      requires Valid()
      modifies this, cron
      ensures Valid()
      ensures out.Replaced? <==> AllAddable(newJobs, addable)
      ensures out.Recovered? <==> !AllAddable(newJobs, addable) && old(jobs) != []
      ensures out.NoPrevious? <==> !AllAddable(newJobs, addable) && old(jobs) == []
      ensures out.Replaced? || out.Recovered? ==>
                && cron != null && fresh(cron) && cron.inFlight == multiset{}
                && Fields() == Started(cron, if out.Replaced? then newJobs else old(jobs))
      ensures out.NoPrevious? ==> Fields() == Detached(old(Fields()))
      ensures !out.Replaced? ==>
                out.error.Unschedulable? && exists k: nat :: FirstRefused(newJobs, addable, k) && out.error.job == newJobs[k]
      ensures old(cron) != null ==> !old(cron).running && old(cron).inFlight == multiset{}
    {
      var prevJobs := jobs;
      StopGraceful();
      var err := Start(newJobs);
      if err.Some? {
        if |prevJobs| > 0 {
          out := RestartPrevious(prevJobs, err.value);
          return;
        }
        return NoPrevious(err.value);
      }
      out := Replaced;
    }

    /** The names last started; a stop leaves them in place. */
    method ActiveJobNames() returns (names: seq<string>)
      requires Valid()
      ensures |names| == |jobs| && forall i :: 0 <= i < |jobs| ==> names[i] == jobs[i].name
      ensures cron != null ==> names == Names(cron.entries)
    {
      names := jobNames;
    }
  }
}
