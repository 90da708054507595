/** main.go: choosing jobs by name, the one-shot runs, and the signal loop. */
module Daemon {
  import opened Wrappers
  import opened Jobs
  import opened Scheduling
  import Text
  import Utils

  // ----- Choosing jobs by name ---------------------------------------------------------------------

  /** Position `k` is the first with a requested name. */
  predicate Chosen(jobs: seq<Job>, names: seq<string>, k: nat) {
    k < |jobs| && jobs[k].name in names && forall i :: 0 <= i < k ==> jobs[i].name != jobs[k].name
  }

  /** `at` lists exactly the chosen positions, in configuration order, and `filtered` the jobs there. */
  ghost predicate Selects(jobs: seq<Job>, names: seq<string>, at: seq<nat>, filtered: seq<Job>) {
    && (forall i, k :: 0 <= i < k < |at| ==> at[i] < at[k])
    && (forall k: nat :: k in at <==> Chosen(jobs, names, k))
    && |filtered| == |at|
    && forall i :: 0 <= i < |at| ==> at[i] < |jobs| && filtered[i] == jobs[at[i]]
  }

  /** The requested names that no job has. */
  function Missing(jobs: seq<Job>, names: seq<string>): set<string> {
    set n | n in names && forall j :: j in jobs ==> j.name != n
  }

  /** The jobs a list of names stands for: "all", or the first job of each name. */
  function Filtered(jobs: seq<Job>, names: seq<string>): seq<Job> {
    if "all" in names then jobs else FirstOfEach(jobs, names)
  }

  function FirstOfEach(jobs: seq<Job>, names: seq<string>): seq<Job> {
    if jobs == [] then []
    else
      var front, last := jobs[..|jobs| - 1], jobs[|jobs| - 1];
      FirstOfEach(front, names) + if last.name in Missing(front, names) then [last] else []
  }

  function NotFound(jobs: seq<Job>, names: seq<string>): set<string> {
    if "all" in names then {} else Missing(jobs, names)
  }

  /** Some job has the name. */
  ghost predicate Known(jobs: seq<Job>, name: string) { exists j :: j in jobs && j.name == name }

  /**
   `FilterJobs`. With "all" among the names every job is taken; otherwise the first of each name, in
   configuration order, and the error carries exactly the names that no job has.
   */
  method FilterJobs(jobs: seq<Job>, names: seq<string>) returns (filtered: seq<Job>, err: Option<set<string>>)
    ensures "all" in names ==> filtered == jobs && err.None?
    ensures "all" !in names ==> exists at :: Selects(jobs, names, at, filtered)
    ensures err.Some? <==> "all" !in names && exists n :: n in names && !Known(jobs, n)
    ensures err.Some? ==> err.value == set n | n in names && !Known(jobs, n)
    ensures filtered == Filtered(jobs, names)
    ensures err == if NotFound(jobs, names) == {} then None else Some(NotFound(jobs, names))
  {
    var nameSet := Utils.NewSetFrom(names);
    if "all" in nameSet {
      return jobs, None;
    }
    filtered := [];
    for i := 0 to |jobs|
      invariant nameSet == Missing(jobs[..i], names)
      invariant filtered == FirstOfEach(jobs[..i], names)
    {
      assert jobs[..i + 1] == jobs[..i] + [jobs[i]] && jobs[..i + 1][..i] == jobs[..i];
      if jobs[i].name in nameSet {
        filtered := filtered + [jobs[i]];
        nameSet := nameSet - {jobs[i].name};
      }
    }
    assert jobs[..|jobs|] == jobs;
    FilteredSelects(jobs, names);
    MissingExactly(jobs, names);
    err := if |nameSet| > 0 then Some(nameSet) else None;
  }

  lemma MissingExactly(jobs: seq<Job>, names: seq<string>)
    ensures Missing(jobs, names) == set n | n in names && !Known(jobs, n)
    ensures Missing(jobs, names) != {} <==> exists n :: n in names && !Known(jobs, n)
  {
    forall n ensures n in Missing(jobs, names) <==> n in names && !Known(jobs, n) {
    }
    assert Missing(jobs, names) != {} ==> exists n :: n in Missing(jobs, names);
  }

  lemma ChosenFront(jobs: seq<Job>, names: seq<string>)
    requires jobs != []
    ensures var n := |jobs| - 1;
            && (forall k: nat :: k < n ==> (Chosen(jobs[..n], names, k) <==> Chosen(jobs, names, k)))
            && (Chosen(jobs, names, n) <==> jobs[n].name in Missing(jobs[..n], names))
  {
    var n := |jobs| - 1;
    var front := jobs[..n];
    assert forall i :: 0 <= i < n ==> front[i] == jobs[i] && front[i] in front;
  }

  /** One more job at the end: it is chosen or it is not. */
  lemma SelectsMore(jobs: seq<Job>, names: seq<string>, at: seq<nat>, filtered: seq<Job>)
    requires jobs != [] && Selects(jobs[..|jobs| - 1], names, at, filtered)
    ensures if Chosen(jobs, names, |jobs| - 1)
            then Selects(jobs, names, at + [|jobs| - 1], filtered + [jobs[|jobs| - 1]])
            else Selects(jobs, names, at, filtered)
  {
    var n := |jobs| - 1;
    ChosenFront(jobs, names);
    forall i | 0 <= i < |at| ensures at[i] < n {
      assert at[i] in at;
    }
    forall k: nat ensures k in at <==> k != n && Chosen(jobs, names, k) {
      if k < n {
        assert Chosen(jobs[..n], names, k) <==> Chosen(jobs, names, k);
      }
    }
  }

  /** Without "all", the result is the jobs that are the first of a requested name, in configuration order. */
  lemma {:induction false} FilteredExact(jobs: seq<Job>, names: seq<string>) returns (at: seq<nat>)
    ensures Selects(jobs, names, at, FirstOfEach(jobs, names))
    decreases |jobs|
  {
    if jobs == [] {
      at := [];
    } else {
      var n := |jobs| - 1;
      at := FilteredExact(jobs[..n], names);
      SelectsMore(jobs, names, at, FirstOfEach(jobs[..n], names));
      ChosenFront(jobs, names);
      at := if Chosen(jobs, names, n) then at + [n] else at;
    }
  }

  lemma FilteredSelects(jobs: seq<Job>, names: seq<string>)
    ensures exists at :: Selects(jobs, names, at, FirstOfEach(jobs, names))
  {
    var _ := FilteredExact(jobs, names);
  }

  // ----- One-shot runs -----------------------------------------------------------------------------

  datatype Phase = Unlocking | BackingUp | Restoring(snapshot: string)

  /** One operation on one job, and whether it succeeded. */
  datatype Ran = Ran(phase: Phase, job: Job, ok: bool)

  datatype PhaseError = OperationFailed | JobsNotFound(names: set<string>)

  /** Where operations happen; `succeeds` decides the n-th one. */
  class Runner {
    const succeeds: (nat, Phase, Job) -> bool
    var trace: seq<Ran>

    constructor (succeeds: (nat, Phase, Job) -> bool)
      ensures trace == [] && this.succeeds == succeeds
    {
      this.succeeds, trace := succeeds, [];
    }

    method Perform(phase: Phase, job: Job) returns (ok: bool)
      modifies `trace
      ensures trace == old(trace) + [Ran(phase, job, ok)]
    {
      ok := succeeds(|trace|, phase, job);
      trace := trace + [Ran(phase, job, ok)];
    }
  }

  /** What a command line flag asks for: nothing, every job, or the first job of each of its names. */
  ghost predicate Asked(jobs: seq<Job>, flag: string, chosen: seq<Job>) {
    var names := Text.Split(flag, ',');
    if flag == "" then chosen == []
    else if "all" in names then chosen == jobs
    else exists at :: Selects(jobs, names, at, chosen)
  }

  function JobsFor(jobs: seq<Job>, flag: string): (chosen: seq<Job>)
    ensures Asked(jobs, flag, chosen)
  {
    if flag == "" then []
    else
      var names := Text.Split(flag, ',');
      FilteredSelects(jobs, names);
      Filtered(jobs, names)
  }

  /** The names it asks for in vain. */
  function InVain(jobs: seq<Job>, flag: string): (names: set<string>)
    ensures forall n :: n in names <==>
              flag != "" && "all" !in Text.Split(flag, ',') && n in Text.Split(flag, ',') && !Known(jobs, n)
  {
    if flag == "" then {} else NotFound(jobs, Text.Split(flag, ','))
  }

  /** The operations of a phase were done in order, all with success. */
  ghost predicate AllRan(phase: Phase, chosen: seq<Job>, ran: seq<Ran>) {
    |ran| == |chosen| && forall i :: 0 <= i < |ran| ==> ran[i] == Ran(phase, chosen[i], true)
  }

  /** They were done up to the first that failed. */
  ghost predicate RanUntilFailure(phase: Phase, chosen: seq<Job>, ran: seq<Ran>) {
    && 0 < |ran| <= |chosen|
    && AllRan(phase, chosen[..|ran| - 1], ran[..|ran| - 1])
    && ran[|ran| - 1] == Ran(phase, chosen[|ran| - 1], false)
  }

  /** One phase: a failed operation ends it; missing names are reported only after every found job has run. */
  ghost predicate PhaseRan(phase: Phase, jobs: seq<Job>, flag: string, ran: seq<Ran>, err: Option<PhaseError>) {
    match err
    case None => AllRan(phase, JobsFor(jobs, flag), ran) && InVain(jobs, flag) == {}
    case Some(OperationFailed) => RanUntilFailure(phase, JobsFor(jobs, flag), ran)
    case Some(JobsNotFound(names)) => AllRan(phase, JobsFor(jobs, flag), ran) && InVain(jobs, flag) == names && names != {}
  }

  /** The phase was done, with success, on exactly the jobs its flag asks for, and every name was found. */
  ghost predicate Served(phase: Phase, jobs: seq<Job>, flag: string, ran: seq<Ran>) {
    && (exists chosen :: Asked(jobs, flag, chosen) && AllRan(phase, chosen, ran))
    && (flag == "" || "all" in Text.Split(flag, ',') || forall n :: n in Text.Split(flag, ',') ==> Known(jobs, n))
  }

  lemma PhaseServed(phase: Phase, jobs: seq<Job>, flag: string, ran: seq<Ran>)
    requires PhaseRan(phase, jobs, flag, ran, None)
    ensures Served(phase, jobs, flag, ran)
  {
    assert Asked(jobs, flag, JobsFor(jobs, flag));
    forall n | n in Text.Split(flag, ',') && flag != "" && "all" !in Text.Split(flag, ',') ensures Known(jobs, n) {
      assert n !in InVain(jobs, flag);
    }
  }

  /** The loop over the chosen jobs. */
  method RunChosen(phase: Phase, chosen: seq<Job>, r: Runner) returns (ok: bool, ghost ran: seq<Ran>)
    modifies r
    ensures r.trace == old(r.trace) + ran
    ensures if ok then AllRan(phase, chosen, ran) else RanUntilFailure(phase, chosen, ran)
  {
    ran := [];
    for i := 0 to |chosen|
      invariant r.trace == old(r.trace) + ran
      invariant AllRan(phase, chosen[..i], ran)
    {
      ok := r.Perform(phase, chosen[i]);
      ran := ran + [Ran(phase, chosen[i], ok)];
      if !ok {
        assert ran[..i] == ran[..|ran| - 1];
        return;
      }
    }
    ok := true;
  }

  /** `runUnlockJobs`, `runBackupJobs` and `runRestoreJobs`, which differ only in the operation. */
  method RunPhase(phase: Phase, jobs: seq<Job>, flag: string, r: Runner) returns (err: Option<PhaseError>, ghost ran: seq<Ran>)
    modifies r
    ensures r.trace == old(r.trace) + ran
    ensures PhaseRan(phase, jobs, flag, ran, err)
    ensures err.None? ==> Served(phase, jobs, flag, ran)
  {
    ran := [];
    if flag == "" {
      PhaseServed(phase, jobs, flag, ran);
      return None, ran;
    }
    var chosen, filterErr := FilterJobs(jobs, Text.Split(flag, ','));
    var ok;
    ok, ran := RunChosen(phase, chosen, r);
    err :=
      if !ok then Some(OperationFailed)
      else if filterErr.Some? then Some(JobsNotFound(filterErr.value))
      else None;
    if err.None? {
      PhaseServed(phase, jobs, flag, ran);
    }
  }

  datatype Flags = Flags(unlock: string, backup: string, restore: string, snapshot: string)

  /** What a phase would do. */
  function Wanted(phase: Phase, chosen: seq<Job>): (ran: seq<Ran>)
    ensures AllRan(phase, chosen, ran)
  {
    seq(|chosen|, i requires 0 <= i < |chosen| => Ran(phase, chosen[i], true))
  }

  /** Unlocks, then backups, then restores; an error in one phase keeps the later ones from starting. */
  ghost predicate JobsRan(jobs: seq<Job>, flags: Flags, ran: seq<Ran>, err: Option<PhaseError>) {
    exists u, b, t :: ran == u + b + t && PhasesRan(jobs, flags, u, b, t, err)
  }

  ghost predicate PhasesRan(jobs: seq<Job>, flags: Flags, u: seq<Ran>, b: seq<Ran>, t: seq<Ran>, err: Option<PhaseError>) {
    if PhaseRan(Unlocking, jobs, flags.unlock, u, None) then
      if PhaseRan(BackingUp, jobs, flags.backup, b, None) then
        PhaseRan(Restoring(flags.snapshot), jobs, flags.restore, t, err)
      else PhaseRan(BackingUp, jobs, flags.backup, b, err) && err.Some? && t == []
    else PhaseRan(Unlocking, jobs, flags.unlock, u, err) && err.Some? && b == t == []
  }

  method RunSpecifiedJobs(jobs: seq<Job>, flags: Flags, r: Runner) returns (err: Option<PhaseError>, ghost ran: seq<Ran>)
    modifies r
    ensures r.trace == old(r.trace) + ran
    ensures JobsRan(jobs, flags, ran, err)
  {
    ghost var u, b, t;
    err, u := RunPhase(Unlocking, jobs, flags.unlock, r);
    ran := u;
    if err.Some? {
      assert ran == u + [] + [] && PhasesRan(jobs, flags, u, [], [], err);
      return;
    }
    err, b := RunPhase(BackingUp, jobs, flags.backup, r);
    Associative(old(r.trace), u, b);
    ran := u + b;
    if err.Some? {
      assert ran == u + b + [] && PhasesRan(jobs, flags, u, b, [], err);
      return;
    }
    err, t := RunPhase(Restoring(flags.snapshot), jobs, flags.restore, r);
    Associative(old(r.trace), u + b, t);
    ran := u + b + t;
    assert PhasesRan(jobs, flags, u, b, t, err);
  }

  /** `ran` does what `plan` says from its start, and stops at the latest where something failed. */
  ghost predicate Follows(plan: seq<Ran>, ran: seq<Ran>) {
    && |ran| <= |plan|
    && (forall i :: 0 <= i < |ran| ==> ran[i].(ok := true) == plan[i])
    && forall i :: 0 <= i < |ran| - 1 ==> ran[i].ok
  }

  /** One phase against what it would do and the names it misses. */
  ghost predicate PhaseEnds(want: seq<Ran>, inVain: set<string>, ran: seq<Ran>, err: Option<PhaseError>) {
    match err
    case None => ran == want && inVain == {}
    case Some(OperationFailed) => Follows(want, ran) && Fails(ran)
    case Some(JobsNotFound(names)) => ran == want && names == inVain != {}
  }

  predicate Fails(ran: seq<Ran>) { ran != [] && !ran[|ran| - 1].ok }

  lemma PhaseEndsAs(phase: Phase, jobs: seq<Job>, flag: string, ran: seq<Ran>, err: Option<PhaseError>)
    requires PhaseRan(phase, jobs, flag, ran, err)
    ensures PhaseEnds(Wanted(phase, JobsFor(jobs, flag)), InVain(jobs, flag), ran, err)
  {
    if err == Some(OperationFailed) {
      UntilFailureFollows(phase, JobsFor(jobs, flag), ran);
    }
  }

  lemma UntilFailureFollows(phase: Phase, chosen: seq<Job>, ran: seq<Ran>)
    requires RanUntilFailure(phase, chosen, ran)
    ensures Follows(Wanted(phase, chosen), ran) && Fails(ran)
  {
    var n := |ran| - 1;
    forall i | 0 <= i < n ensures ran[i] == Ran(phase, chosen[i], true) {
      assert ran[..n][i] == Ran(phase, chosen[..n][i], true);
    }
  }

  ghost predicate AllOk(ran: seq<Ran>) { forall i :: 0 <= i < |ran| ==> ran[i].ok }

  lemma FollowsAfter(done: seq<Ran>, plan: seq<Ran>, rest: seq<Ran>, ran: seq<Ran>)
    requires AllOk(done) && AllOk(plan) && Follows(plan, ran)
    ensures Follows(done + plan + rest, done + ran)
    ensures Fails(ran) ==> Fails(done + ran) && done + ran != done + plan + rest
  {
    if Fails(ran) {
      assert (done + plan + rest)[|done + ran| - 1].ok;
    }
  }

  /**
   The trace of three phases: it follows their plans in order; it is the whole plan and finds every name
   exactly if there is no error; a failed operation is always the last; and names are reported missing
   by the first phase that misses any, after the jobs it found.
   */
  ghost predicate Traced(u: seq<Ran>, b: seq<Ran>, t: seq<Ran>, noU: set<string>, noB: set<string>, noT: set<string>,
                         ran: seq<Ran>, err: Option<PhaseError>) {
    && Follows(u + b + t, ran)
    && (err == None <==> ran == u + b + t && noU == noB == noT == {})
    && (err == Some(OperationFailed) <==> Fails(ran))
    && (err.Some? && err.value.JobsNotFound? ==>
          if noU != {} then err.value.names == noU && ran == u
          else if noB != {} then err.value.names == noB && ran == u + b
          else err.value.names == noT && ran == u + b + t)
  }

  lemma UnlockStops(u: seq<Ran>, b: seq<Ran>, t: seq<Ran>, noU: set<string>, noB: set<string>, noT: set<string>,
                    ran: seq<Ran>, err: Option<PhaseError>)
    requires AllOk(u) && AllOk(b) && AllOk(t) && err.Some? && PhaseEnds(u, noU, ran, err)
    ensures Traced(u, b, t, noU, noB, noT, ran, err)
  {
    FollowsAfter([], u, b + t, ran);
    assert [] + u + (b + t) == u + b + t && [] + ran == ran;
  }

  lemma BackupStops(u: seq<Ran>, b: seq<Ran>, t: seq<Ran>, noB: set<string>, noT: set<string>,
                    ran: seq<Ran>, err: Option<PhaseError>)
    requires AllOk(u) && AllOk(b) && AllOk(t) && err.Some? && PhaseEnds(b, noB, ran, err)
    ensures Traced(u, b, t, {}, noB, noT, u + ran, err)
  {
    FollowsAfter(u, b, t, ran);
  }

  lemma RestoreEnds(u: seq<Ran>, b: seq<Ran>, t: seq<Ran>, noT: set<string>, ran: seq<Ran>, err: Option<PhaseError>)
    requires AllOk(u) && AllOk(b) && AllOk(t) && PhaseEnds(t, noT, ran, err)
    ensures Traced(u, b, t, {}, {}, noT, u + b + ran, err)
  {
    FollowsAfter(u + b, t, [], ran);
    assert u + b + t + [] == u + b + t;
  }

  /** Each phase was done on all the jobs its own flag asks for, unlocks before backups before restores. */
  ghost predicate AllServed(jobs: seq<Job>, flags: Flags, ran: seq<Ran>) {
    exists u, b, t ::
      && ran == u + b + t && Served(Unlocking, jobs, flags.unlock, u) && Served(BackingUp, jobs, flags.backup, b)
      && Served(Restoring(flags.snapshot), jobs, flags.restore, t)
  }

  lemma WithoutError(jobs: seq<Job>, flags: Flags, ran: seq<Ran>)
    requires JobsRan(jobs, flags, ran, None)
    ensures AllServed(jobs, flags, ran)
  {
    var u, b, t :| ran == u + b + t && PhasesRan(jobs, flags, u, b, t, None);
    PhaseServed(Unlocking, jobs, flags.unlock, u);
    PhaseServed(BackingUp, jobs, flags.backup, b);
    PhaseServed(Restoring(flags.snapshot), jobs, flags.restore, t);
  }

  /** The three phases of a command line, traced. */
  ghost predicate RunTraced(jobs: seq<Job>, flags: Flags, ran: seq<Ran>, err: Option<PhaseError>) {
    Traced(Wanted(Unlocking, JobsFor(jobs, flags.unlock)), Wanted(BackingUp, JobsFor(jobs, flags.backup)),
           Wanted(Restoring(flags.snapshot), JobsFor(jobs, flags.restore)),
           InVain(jobs, flags.unlock), InVain(jobs, flags.backup), InVain(jobs, flags.restore), ran, err)
  }

  /**
   Every one-shot run, whatever fails, leaves such a trace of its unlocks, backups and restores; without
   an error every flag was served, so "all" has taken every job in configuration order.
   */
  lemma OneShotTrace(jobs: seq<Job>, flags: Flags, ran: seq<Ran>, err: Option<PhaseError>)
    requires JobsRan(jobs, flags, ran, err)
    ensures RunTraced(jobs, flags, ran, err)
    ensures err.None? ==> AllServed(jobs, flags, ran)
  {
    var u, b, t :| ran == u + b + t && PhasesRan(jobs, flags, u, b, t, err);
    PhasesTraced(jobs, flags, u, b, t, err);
    if err.None? {
      WithoutError(jobs, flags, ran);
    }
  }

  lemma PhasesTraced(jobs: seq<Job>, flags: Flags, u: seq<Ran>, b: seq<Ran>, t: seq<Ran>, err: Option<PhaseError>)
    requires PhasesRan(jobs, flags, u, b, t, err)
    ensures RunTraced(jobs, flags, u + b + t, err)
  {
    var wu, wb := Wanted(Unlocking, JobsFor(jobs, flags.unlock)), Wanted(BackingUp, JobsFor(jobs, flags.backup));
    var wt := Wanted(Restoring(flags.snapshot), JobsFor(jobs, flags.restore));
    var noU, noB, noT := InVain(jobs, flags.unlock), InVain(jobs, flags.backup), InVain(jobs, flags.restore);
    if !PhaseRan(Unlocking, jobs, flags.unlock, u, None) {
      PhaseEndsAs(Unlocking, jobs, flags.unlock, u, err);
      UnlockStops(wu, wb, wt, noU, noB, noT, u, err);
      assert u + [] + [] == u;
    } else {
      PhaseEndsAs(Unlocking, jobs, flags.unlock, u, None);
      if !PhaseRan(BackingUp, jobs, flags.backup, b, None) {
        PhaseEndsAs(BackingUp, jobs, flags.backup, b, err);
        BackupStops(wu, wb, wt, noB, noT, b, err);
        assert u + b + [] == u + b;
      } else {
        PhaseEndsAs(BackingUp, jobs, flags.backup, b, None);
        PhaseEndsAs(Restoring(flags.snapshot), jobs, flags.restore, t, err);
        RestoreEnds(wu, wb, wt, noT, t, err);
      }
    }
  }

  // ----- The signal loop ---------------------------------------------------------------------------

  /** A hang-up finds the configuration files, and the file system, in some state. */
  datatype Signal = Hangup(files: seq<FileContent>, stat: string -> FileState) | Interrupt | Terminate | Quit

  /** A hang-up whose files can all be read. */
  ghost predicate Reloads(sig: Signal, parses: string -> bool) {
    sig.Hangup? && Readable(sig.files, Checks(parses, sig.stat))
  }

  ghost predicate LastReload(signals: seq<Signal>, parses: string -> bool, i: int) {
    0 <= i < |signals| && Reloads(signals[i], parses) && forall k :: i < k < |signals| ==> !Reloads(signals[k], parses)
  }

  /** The job set of the last reading that succeeded. */
  ghost function LastGood(initial: seq<Job>, signals: seq<Signal>, parses: string -> bool): seq<Job> {
    if signals == [] then initial
    else
      var sig := signals[|signals| - 1];
      if Reloads(sig, parses) then JobsOf(sig.files) else LastGood(initial, signals[..|signals| - 1], parses)
  }

  /** `jobs` are those of the last hang-up that could be read, and the initial ones if there was none. */
  ghost predicate Latest(initial: seq<Job>, signals: seq<Signal>, parses: string -> bool, jobs: seq<Job>) {
    || (exists i :: LastReload(signals, parses, i) && jobs == JobsOf(signals[i].files))
    || ((forall i :: 0 <= i < |signals| ==> !Reloads(signals[i], parses)) && jobs == initial)
  }

  lemma {:induction false} LastGoodAt(initial: seq<Job>, signals: seq<Signal>, parses: string -> bool) returns (i: int)
    ensures i < |signals| && forall k :: 0 <= k < |signals| && i < k ==> !Reloads(signals[k], parses)
    ensures i < 0 ==> LastGood(initial, signals, parses) == initial
    ensures i >= 0 ==> Reloads(signals[i], parses) && LastGood(initial, signals, parses) == JobsOf(signals[i].files)
    decreases |signals|
  {
    i := |signals| - 1;
    if i >= 0 && !Reloads(signals[i], parses) {
      i := LastGoodAt(initial, signals[..i], parses);
    }
  }

  lemma LastGoodIs(initial: seq<Job>, signals: seq<Signal>, parses: string -> bool)
    ensures Latest(initial, signals, parses, LastGood(initial, signals, parses))
  {
    var i := LastGoodAt(initial, signals, parses);
    assert i >= 0 ==> LastReload(signals, parses, i);
  }

  ghost predicate NoStop(signals: seq<Signal>) { forall sig :: sig in signals ==> sig.Hangup? }

  /** The signals up to the first one that stops the program. */
  function UntilStop(signals: seq<Signal>): seq<Signal> {
    if signals == [] || !signals[0].Hangup? then [] else [signals[0]] + UntilStop(signals[1..])
  }

  lemma {:induction false} UntilStopIs(signals: seq<Signal>, n: nat)
    requires n <= |signals| && NoStop(signals[..n]) && (n < |signals| ==> !signals[n].Hangup?)
    ensures UntilStop(signals) == signals[..n]
    decreases n
  {
    if n > 0 {
      assert signals[0] == signals[..n][0];
      assert signals[1..][..n - 1] == signals[..n][1..];
      UntilStopIs(signals[1..], n - 1);
      assert signals[..n] == [signals[0]] + signals[1..][..n - 1];
    }
  }

  lemma ValidAddable(jobs: seq<Job>, checks: Checks, addable: string -> bool)
    requires forall j :: j in jobs ==> ValidJob(j, checks)
    requires forall t :: checks.parses(t) ==> addable(t)
    ensures AllAddable(jobs, addable)
  {
  }

  /** What the stop signal `sig` leaves of the cron it ends; `was` is what this cron had in flight before. */
  ghost predicate Ended(sig: Signal, cron: Cron, was: multiset<Job>)
    reads cron
  {
    !cron.running && cron.inFlight == if sig.Interrupt? then was else multiset{}
  }

  /**
   The loop over signals, and what it has done to the scheduler once it has seen `signals`. Between
   signals the scheduler is started with exactly the last good job set; `refused` counts reloads that
   `ReplaceJobs` did not apply, and stays zero. A stop signal ends the cron then attached, `ended`: an
   interrupt leaves its runs in flight, the others wait for them.
   */
  method ServeSignals(sched: Scheduler, signals: seq<Signal>, parses: string -> bool) returns (refused: int, ended: Cron?)
    requires sched.Valid() && sched.started
    requires forall t :: parses(t) ==> sched.addable(t)
    modifies sched, sched.cron
    ensures sched.Valid() && refused == 0
    ensures ended == null <==> NoStop(signals)
    ensures sched.jobs == LastGood(old(sched.jobs), UntilStop(signals), parses)
    ensures Latest(old(sched.jobs), UntilStop(signals), parses, sched.jobs)
    ensures sched.started <==> ended == null
    ensures sched.started ==> sched.cron != null && sched.cron.running && sched.cron.entries == sched.jobs
    ensures ended != null ==>
              && |UntilStop(signals)| < |signals| && (ended == old(sched.cron) || fresh(ended))
              && Ended(signals[|UntilStop(signals)|], ended,
                       if ended == old(sched.cron) then old(sched.cron.inFlight) else multiset{})
  {
    refused, ended := 0, null;
    for i := 0 to |signals|
      invariant sched.Valid() && sched.started && refused == 0 && ended == null
      invariant sched.cron == old(sched.cron) || fresh(sched.cron)
      invariant sched.cron.inFlight == if sched.cron == old(sched.cron) then old(sched.cron.inFlight) else multiset{}
      invariant NoStop(signals[..i]) && sched.jobs == LastGood(old(sched.jobs), signals[..i], parses)
    {
      var sig := signals[i];
      assert signals[..i + 1] == signals[..i] + [sig] && signals[..i + 1][..i] == signals[..i];
      match sig {
        case Hangup(files, stat) =>
          var checks := Checks(parses, stat);
          var newJobs := ReadJobs(files, checks);
          if newJobs.Ok? {
            ReadJobsValid(files, checks);
            ValidAddable(newJobs.value, checks, sched.addable);
            var out := sched.ReplaceJobs(newJobs.value);
            if !out.Replaced? {
              refused := refused + 1;
            }
          }
        case Interrupt =>
          UntilStopIs(signals, i);
          assert sig in signals;
          LastGoodIs(old(sched.jobs), signals[..i], parses);
          ended := sched.cron;
          sched.StopNow();
          return;
        case _ =>
          UntilStopIs(signals, i);
          assert sig in signals;
          LastGoodIs(old(sched.jobs), signals[..i], parses);
          ended := sched.cron;
          sched.StopGraceful();
          return;
      }
    }
    assert signals[..|signals|] == signals;
    UntilStopIs(signals, |signals|);
    LastGoodIs(old(sched.jobs), signals, parses);
  }

  datatype Exit = CannotRead | JobsFailed | RanOnce | CannotStart | StoppedBySignal | StillServing

  /**
   The program from reading its files to the last signal seen. Scheduling never fails: a program that
   goes on to serve has started its scheduler, and it ends by a signal or not at all.
   */
  method RunProgram(files: seq<FileContent>, checks: Checks, flags: Flags, once: bool, signals: seq<Signal>,
                    r: Runner, sched: Scheduler)
    returns (exit: Exit, ghost ran: seq<Ran>)
    requires sched.Valid() && !sched.started && sched.cron == null
    requires forall t :: checks.parses(t) ==> sched.addable(t)
    modifies r, sched
    ensures sched.Valid() && r.trace == old(r.trace) + ran
    ensures exit.CannotRead? <==> !Readable(files, checks)
    ensures exit.CannotRead? ==> ran == []
    ensures !exit.CannotRead? ==>
              exists err :: JobsRan(JobsOf(files), flags, ran, err) && (exit.JobsFailed? <==> err.Some?)
    ensures exit.RanOnce? ==> once
    ensures exit.StillServing? || exit.StoppedBySignal? ==>
              && !once && sched.jobs == LastGood(JobsOf(files), UntilStop(signals), checks.parses)
              && (exit.StillServing? <==> NoStop(signals)) && (sched.started <==> exit.StillServing?)
    ensures !exit.StillServing? ==> !sched.started
    ensures !exit.CannotStart?
  {
    ran := [];
    var jobs := ReadJobs(files, checks);
    if jobs.Err? {
      return CannotRead, ran;
    }
    var err;
    err, ran := RunSpecifiedJobs(jobs.value, flags, r);
    if err.Some? {
      return JobsFailed, ran;
    }
    if once {
      return RanOnce, ran;
    }
    ReadJobsValid(files, checks);
    ValidAddable(jobs.value, checks, sched.addable);
    var startErr := sched.Start(jobs.value);
    if startErr.Some? {
      return CannotStart, ran;
    }
    var refused, ended := ServeSignals(sched, signals, checks.parses);
    exit := if ended != null then StoppedBySignal else StillServing;
  }
}
