/**
 job.go and scheduler.go: the failure gauge that `Run` updates and the last results that `JobComplete`
 keeps. Both are global, so they outlive the scheduler's cron instances and reloads.
 */
module Health {
  import opened Wrappers

  datatype JobResult = JobResult(jobName: string, success: bool, lastError: Option<string>)

  /** What happened in one run: the error of `RunBackup` and that of `ReadSnapshots`. */
  datatype Attempt = Attempt(backup: Option<string>, snapshots: Option<string>)

  /** A failure to list snapshots is reported, but it does not make the run a failed one. */
  function ResultOf(name: string, a: Attempt): JobResult {
    JobResult(name, a.backup.None?, if a.backup.Some? then a.backup else a.snapshots)
  }

  datatype Response = Response(status: int, message: string)

  const OK := 200
  const NOT_FOUND := 404
  const SERVICE_UNAVAILABLE := 503

  /** `Gauge.WithLabelValues`: a gauge nobody has set reads zero. */
  function Gauge(gauges: map<string, nat>, name: string): nat {
    if name in gauges then gauges[name] else 0
  }

  /** The gauges once a run of `name` has been counted. */
  function CountIn(gauges: map<string, nat>, name: string, success: bool): map<string, nat> {
    gauges[name := if success then 0 else Gauge(gauges, name) + 1]
  }

  /** `writeJobResult`. */
  function ReadHealth(results: map<string, JobResult>, name: string): Response {
    if name !in results then Response(NOT_FOUND, "Unknown job")
    else
      var r := results[name];
      Response(if r.success then OK else SERVICE_UNAVAILABLE, if r.lastError.Some? then r.lastError.value else "")
  }

  /** The global metrics and results. */
  class Board {
    var gauges: map<string, nat>
    var results: map<string, JobResult>

    constructor ()
      ensures gauges == map[] && results == map[]
    {
      gauges, results := map[], map[];
    }

    method JobComplete(result: JobResult)
      modifies `results
      ensures results == old(results)[result.jobName := result]
    {
      results := results[result.jobName := result];
    }

    /** `Job.Run` around its backup and its listing of snapshots. */
    method Run(name: string, a: Attempt)
      modifies this
      ensures gauges == CountIn(old(gauges), name, a.backup.None?)
      ensures results == old(results)[name := ResultOf(name, a)]
      ensures results[name].jobName == name && (results[name].success <==> a.backup.None?)
      ensures results[name].lastError == if a.backup.Some? then a.backup else a.snapshots
    {
      var result := JobResult(name, true, None);
      if a.backup.Some? {
        result := result.(success := false, lastError := a.backup);
      }
      if a.snapshots.Some? {
        if result.lastError.None? {
          result := result.(lastError := a.snapshots);
        }
      }
      if result.success {
        gauges := gauges[name := 0];
      } else {
        gauges := gauges[name := Gauge(gauges, name) + 1];
      }
      JobComplete(result);
    }
  }

  // ----- Runs that overlap -------------------------------------------------------------------------

  /** A run in flight, before and after it has been counted in the gauge. */
  datatype Run = Begun(name: string) | Counted(result: JobResult)

  datatype State = State(gauges: map<string, nat>, results: map<string, JobResult>, runs: map<nat, Run>)

  /** What any thread may do next: runs start, are counted, complete. A reload is no event: nothing here notices it. */
  datatype Event =
    | Begin(id: nat, name: string)
    | Count(id: nat, attempt: Attempt)
    | Complete(id: nat)

  function NameOf(run: Run): string {
    match run
    case Begun(name) => name
    case Counted(result) => result.jobName
  }

  predicate Enabled(s: State, e: Event) {
    match e
    case Begin(id, _) => id !in s.runs
    case Count(id, _) => id in s.runs && s.runs[id].Begun?
    case Complete(id) => id in s.runs && s.runs[id].Counted?
  }

  function Apply(s: State, e: Event): State
    requires Enabled(s, e)
  {
    match e
    case Begin(id, name) => s.(runs := s.runs[id := Begun(name)])
    case Count(id, a) =>
      var name := s.runs[id].name;
      s.(gauges := CountIn(s.gauges, name, a.backup.None?), runs := s.runs[id := Counted(ResultOf(name, a))])
    case Complete(id) =>
      var result := s.runs[id].result;
      s.(results := s.results[result.jobName := result], runs := s.runs - {id})
  }

  /** The events can happen in this order. */
  predicate Possible(events: seq<Event>)
    decreases |events|, 1
  {
    events == [] || (Possible(events[..|events| - 1]) && Enabled(After(events[..|events| - 1]), events[|events| - 1]))
  }

  function After(events: seq<Event>): State
    requires Possible(events)
    decreases |events|, 2
  {
    if events == [] then State(map[], map[], map[])
    else Apply(After(events[..|events| - 1]), events[|events| - 1])
  }

  /** The name the last event is about, if it counts or completes a run. */
  function RunName(events: seq<Event>): string
    requires events != [] && Possible(events) && (events[|events| - 1].Count? || events[|events| - 1].Complete?)
  {
    NameOf(After(events[..|events| - 1]).runs[events[|events| - 1].id])
  }

  /** How the runs of `name` went, in the order they were counted. */
  function CountedRuns(events: seq<Event>, name: string): seq<bool>
    requires Possible(events)
  {
    if events == [] then []
    else
      var before, last := CountedRuns(events[..|events| - 1], name), events[|events| - 1];
      if last.Count? && RunName(events) == name then before + [last.attempt.backup.None?] else before
  }

  /** Their results, in the order they completed. */
  function CompletedResults(events: seq<Event>, name: string): seq<JobResult>
    requires Possible(events)
  {
    if events == [] then []
    else
      var before, last := CompletedResults(events[..|events| - 1], name), events[|events| - 1];
      if last.Complete? && RunName(events) == name
      then before + [After(events[..|events| - 1]).runs[last.id].result]
      else before
  }

  function Outcomes(results: seq<JobResult>): seq<bool> {
    seq(|results|, i requires 0 <= i < |results| => results[i].success)
  }

  /** How the runs of `name` went, in the order they completed. */
  function CompletedRuns(events: seq<Event>, name: string): seq<bool>
    requires Possible(events)
  {
    Outcomes(CompletedResults(events, name))
  }

  /** The length of the longest block of failures at the end. */
  function TrailingFailures(history: seq<bool>): (n: nat)
    ensures n <= |history|
    ensures forall i :: |history| - n <= i < |history| ==> !history[i]
    ensures n < |history| ==> history[|history| - n - 1]
  {
    if history == [] || history[|history| - 1] then 0 else 1 + TrailingFailures(history[..|history| - 1])
  }

  /** In any interleaving the gauge is the block of failures last counted. */
  lemma {:induction false} GaugeCounts(events: seq<Event>, name: string)
    requires Possible(events)
    ensures Gauge(After(events).gauges, name) == TrailingFailures(CountedRuns(events, name))
    decreases |events|
  {
    if events != [] {
      GaugeCounts(events[..|events| - 1], name);
    }
  }

  /** In any interleaving the last result is that of the run completed last. */
  lemma {:induction false} ResultIsLast(events: seq<Event>, name: string)
    requires Possible(events)
    ensures var done := CompletedResults(events, name);
            if done == [] then
              name !in After(events).results && ReadHealth(After(events).results, name) == Response(404, "Unknown job")
            else
              var last, error := done[|done| - 1], done[|done| - 1].lastError;
              && name in After(events).results && After(events).results[name] == last
              && ReadHealth(After(events).results, name) ==
                 Response(if last.success then 200 else 503, if error.Some? then error.value else "")
    decreases |events|
  {
    if events != [] {
      ResultIsLast(events[..|events| - 1], name);
    }
  }

  /** A run of `name`, in flight. */
  predicate Runs(s: State, id: nat, name: string) { id in s.runs && NameOf(s.runs[id]) == name }

  /** No run of `name` is in flight. */
  ghost predicate Quiet(s: State, name: string) {
    forall id :: !Runs(s, id, name)
  }

  /** Runs of `name` never overlap: each begins when none is in flight. */
  ghost predicate Serial(events: seq<Event>, name: string)
    requires Possible(events)
  {
    events == [] ||
    (Serial(events[..|events| - 1], name)
     && (events[|events| - 1].Begin? && events[|events| - 1].name == name ==> Quiet(After(events[..|events| - 1]), name)))
  }

  /** The run of `name` in flight is the only one; it is ahead by its own result once it is counted. */
  ghost predicate InStep(s: State, name: string, counted: seq<bool>, completed: seq<bool>) {
    && (forall id, id' :: Runs(s, id, name) && Runs(s, id', name) ==> id == id')
    && (forall id :: Runs(s, id, name) ==>
          counted == completed + if s.runs[id].Counted? then [s.runs[id].result.success] else [])
    && (Quiet(s, name) ==> counted == completed)
  }

  lemma {:induction false} SerialInStep(events: seq<Event>, name: string)
    requires Possible(events) && Serial(events, name)
    ensures InStep(After(events), name, CountedRuns(events, name), CompletedRuns(events, name))
    decreases |events|
  {
    if events != [] {
      var before, e := events[..|events| - 1], events[|events| - 1];
      SerialInStep(before, name);
      StaysInStep(After(before), e, name, CountedRuns(before, name), CompletedRuns(before, name));
      assert CompletedRuns(events, name) ==
             CompletedRuns(before, name)
             + if e.Complete? && RunName(events) == name then [After(before).runs[e.id].result.success] else [];
    }
  }

  lemma StaysInStep(s: State, e: Event, name: string, counted: seq<bool>, completed: seq<bool>)
    requires InStep(s, name, counted, completed) && Enabled(s, e)
    requires e.Begin? && e.name == name ==> Quiet(s, name)
    ensures InStep(Apply(s, e), name,
                   counted + if e.Count? && s.runs[e.id].name == name then [e.attempt.backup.None?] else [],
                   completed + if e.Complete? && NameOf(s.runs[e.id]) == name then [s.runs[e.id].result.success] else [])
  {
    var s' := Apply(s, e);
    if (e.Count? || e.Complete?) && NameOf(s.runs[e.id]) == name {
      assert Runs(s, e.id, name);
      forall id | Runs(s', id, name) ensures id == e.id && e.Count? {
        assert Runs(s, id, name);
      }
      assert e.Count? ==> Runs(s', e.id, name);
    } else if e.Begin? && e.name == name {
      forall id | Runs(s', id, name) ensures id == e.id {
        assert !Runs(s, id, name);
      }
      assert Runs(s', e.id, name);
    } else {
      forall id ensures Runs(s', id, name) <==> Runs(s, id, name) {
      }
      OthersInStep(s, s', name, counted, completed);
    }
    assert counted + [] == counted && completed + [] == completed;
  }

  /** What happens to other jobs does not matter. */
  lemma OthersInStep(s: State, s': State, name: string, counted: seq<bool>, completed: seq<bool>)
    requires InStep(s, name, counted, completed)
    requires forall id :: Runs(s', id, name) <==> Runs(s, id, name)
    requires forall id :: Runs(s, id, name) ==> id in s'.runs && s'.runs[id] == s.runs[id]
    ensures InStep(s', name, counted, completed)
  {
    if Quiet(s', name) {
      assert forall id :: !Runs(s, id, name);
    }
  }

  /** With none in flight, the runs counted are those completed, in the same order. */
  lemma GaugeFollows(events: seq<Event>, name: string)
    requires Possible(events) && Serial(events, name) && Quiet(After(events), name)
    ensures Gauge(After(events).gauges, name) == TrailingFailures(CompletedRuns(events, name))
  {
    SerialInStep(events, name);
    GaugeCounts(events, name);
  }

  lemma StatusAgrees(events: seq<Event>, name: string)
    requires Possible(events) && Serial(events, name) && Quiet(After(events), name)
    ensures ReadHealth(After(events).results, name).status ==
            StatusFor(CompletedResults(events, name), Gauge(After(events).gauges, name))
  {
    GaugeFollows(events, name);
    LastResult(events, name);
    StatusFollows(After(events), name, CompletedResults(events, name));
  }

  /** The status that goes with these completed runs and this gauge. */
  function StatusFor(done: seq<JobResult>, gauge: nat): int {
    if done == [] then NOT_FOUND else if gauge > 0 then SERVICE_UNAVAILABLE else OK
  }

  /**
   Gauge and health agree with the history. If runs of `name` do not overlap one another -- runs of other
   jobs may come anywhere -- then whenever none is in flight the gauge is the number of
   failures since the last success, and the health status is "not found" before the first completed run,
   "unavailable" exactly while the gauge is positive, and "ok" otherwise.
   */
  lemma HealthAgrees(events: seq<Event>, name: string)
    requires Possible(events) && Serial(events, name) && Quiet(After(events), name)
    ensures Gauge(After(events).gauges, name) == TrailingFailures(CompletedRuns(events, name))
    ensures ReadHealth(After(events).results, name).status ==
            if CompletedResults(events, name) == [] then 404
            else if TrailingFailures(CompletedRuns(events, name)) > 0 then 503
            else 200
  {
    GaugeFollows(events, name);
    StatusAgrees(events, name);
  }

  lemma LastResult(events: seq<Event>, name: string)
    requires Possible(events)
    ensures var results, done := After(events).results, CompletedResults(events, name);
            if done == [] then name !in results else name in results && results[name] == done[|done| - 1]
  {
    ResultIsLast(events, name);
  }

  lemma StatusFollows(s: State, name: string, done: seq<JobResult>)
    requires Gauge(s.gauges, name) == TrailingFailures(Outcomes(done))
    requires if done == [] then name !in s.results else name in s.results && s.results[name] == done[|done| - 1]
    ensures ReadHealth(s.results, name).status == StatusFor(done, Gauge(s.gauges, name))
  {
    if done != [] {
      assert Outcomes(done)[|done| - 1] == done[|done| - 1].success;
    }
  }

  // ----- Runs of one job that overlap --------------------------------------------------------------

  /** The place of the event that counted run `id`, now or before it completed. */
  function CountedAt(events: seq<Event>, id: nat): Option<nat> {
    if events == [] then None
    else if events[|events| - 1].Count? && events[|events| - 1].id == id then Some(|events| - 1)
    else CountedAt(events[..|events| - 1], id)
  }

  /** The run of `name` counted last, told by the place where it was counted. */
  function LastCounted(events: seq<Event>, name: string): Option<nat>
    requires Possible(events)
  {
    if events == [] then None
    else if events[|events| - 1].Count? && RunName(events) == name then Some(|events| - 1)
    else LastCounted(events[..|events| - 1], name)
  }

  /** The run of `name` completed last, told in the same way. */
  function LastCompleted(events: seq<Event>, name: string): Option<nat>
    requires Possible(events)
  {
    if events == [] then None
    else
      var front, last := events[..|events| - 1], events[|events| - 1];
      if last.Complete? && RunName(events) == name then CountedAt(front, last.id) else LastCompleted(front, name)
  }

  /** The event at `at` counted a failed run. */
  predicate FailedAt(events: seq<Event>, at: nat) {
    at < |events| && events[at].Count? && events[at].attempt.backup.Some?
  }

  /** The two readings tell the same about the job. */
  predicate Agree(s: State, name: string) {
    ReadHealth(s.results, name).status == SERVICE_UNAVAILABLE <==> Gauge(s.gauges, name) > 0
  }

  /** A counted run's result is that of the attempt it was counted with. */
  lemma {:induction false} CountedResult(events: seq<Event>, id: nat)
    requires Possible(events) && id in After(events).runs && After(events).runs[id].Counted?
    ensures CountedAt(events, id).Some? && CountedAt(events, id).value < |events|
    ensures After(events).runs[id].result.success <==> !FailedAt(events, CountedAt(events, id).value)
    decreases |events|
  {
    var front, last := events[..|events| - 1], events[|events| - 1];
    if !(last.Count? && last.id == id) {
      CountedResult(front, id);
    }
  }

  /** The gauge goes by the run counted last. */
  lemma {:induction false} GaugeByLast(events: seq<Event>, name: string)
    requires Possible(events)
    ensures Gauge(After(events).gauges, name) > 0 <==>
            LastCounted(events, name).Some? && FailedAt(events, LastCounted(events, name).value)
    decreases |events|
  {
    if events != [] && !(events[|events| - 1].Count? && RunName(events) == name) {
      GaugeByLast(events[..|events| - 1], name);
      LastCountedRange(events[..|events| - 1], name);
    }
  }

  lemma {:induction false} LastCountedRange(events: seq<Event>, name: string)
    requires Possible(events)
    ensures LastCounted(events, name).Some? ==> LastCounted(events, name).value < |events|
    decreases |events|
  {
    if events != [] {
      LastCountedRange(events[..|events| - 1], name);
    }
  }

  /** The status goes by the run completed last. */
  lemma {:induction false} StatusByLast(events: seq<Event>, name: string)
    requires Possible(events)
    ensures LastCompleted(events, name).Some? ==> LastCompleted(events, name).value < |events|
    ensures ReadHealth(After(events).results, name).status == SERVICE_UNAVAILABLE <==>
            LastCompleted(events, name).Some? && FailedAt(events, LastCompleted(events, name).value)
    decreases |events|
  {
    if events != [] {
      var front, last := events[..|events| - 1], events[|events| - 1];
      if last.Complete? && RunName(events) == name {
        CountedResult(front, last.id);
      } else {
        StatusByLast(front, name);
      }
    }
  }

  /** The same events but for how the runs went. */
  predicate SameOrder(a: seq<Event>, b: seq<Event>) {
    |a| == |b| && forall i :: 0 <= i < |a| ==> SameKind(a[i], b[i])
  }

  predicate SameKind(a: Event, b: Event) {
    if a.Count? then b.Count? && a.id == b.id else a == b
  }

  /** The same runs in flight, equally far. */
  ghost predicate SameRuns(a: State, b: State) {
    && a.runs.Keys == b.runs.Keys
    && forall id :: id in a.runs ==> NameOf(a.runs[id]) == NameOf(b.runs[id]) && a.runs[id].Begun? == b.runs[id].Begun?
  }

  /** How runs go decides neither what can happen next nor which run is counted or completed last. */
  lemma {:induction false} OrderDecides(a: seq<Event>, b: seq<Event>, name: string)
    requires Possible(a) && SameOrder(a, b)
    ensures Possible(b) && SameRuns(After(a), After(b))
    ensures LastCounted(a, name) == LastCounted(b, name) && LastCompleted(a, name) == LastCompleted(b, name)
    decreases |a|
  {
    if a != [] {
      var n := |a| - 1;
      OrderDecides(a[..n], b[..n], name);
      assert SameKind(a[n], b[n]);
      if a[n].Complete? {
        SameCountedAt(a[..n], b[..n], a[n].id);
      }
    }
  }

  lemma {:induction false} SameCountedAt(a: seq<Event>, b: seq<Event>, id: nat)
    requires SameOrder(a, b)
    ensures CountedAt(a, id) == CountedAt(b, id)
    decreases |a|
  {
    if a != [] {
      var n := |a| - 1;
      assert SameKind(a[n], b[n]);
      SameCountedAt(a[..n], b[..n], id);
    }
  }

  /** The same events with the run counted at `i` failed and all others fine, or all failed. */
  function OnlyFailure(events: seq<Event>, i: Option<nat>): (other: seq<Event>)
    ensures SameOrder(events, other)
    ensures forall k: nat :: k < |events| && events[k].Count? ==> (FailedAt(other, k) <==> i == Some(k) || i.None?)
  {
    seq(|events|, k requires 0 <= k < |events| =>
      if events[k].Count? then events[k].(attempt := Attempt(if i == Some(k) || i.None? then Some("failed") else None, None))
      else events[k])
  }

  /**
   With runs of one job allowed to overlap: at any moment, status and gauge agree however the runs went
   exactly if the run counted last is the run completed last. If they are different runs -- or one was
   counted and none has completed -- some outcomes of the same events make them disagree.
   */
  lemma HealthAgreesExactly(events: seq<Event>, name: string)
    requires Possible(events)
    ensures (forall other :: SameOrder(events, other) ==> Possible(other) && Agree(After(other), name)) <==>
            LastCounted(events, name) == LastCompleted(events, name)
  {
    var counted, completed := LastCounted(events, name), LastCompleted(events, name);
    forall other | SameOrder(events, other)
      ensures Possible(other)
      ensures counted == completed ==> Agree(After(other), name)
    {
      OrderDecides(events, other, name);
      GaugeByLast(other, name);
      StatusByLast(other, name);
    }
    if counted != completed {
      var other := OnlyFailure(events, counted);
      OrderDecides(events, other, name);
      GaugeByLast(other, name);
      StatusByLast(other, name);
      LastAreCounts(events, name);
      assert !Agree(After(other), name);
    }
  }

  lemma {:induction false} LastAreCounts(events: seq<Event>, name: string)
    requires Possible(events)
    ensures var c := LastCounted(events, name); c.Some? ==> c.value < |events| && events[c.value].Count?
    ensures var c := LastCompleted(events, name); c.Some? ==> c.value < |events| && events[c.value].Count?
    decreases |events|
  {
    if events != [] {
      var front, last := events[..|events| - 1], events[|events| - 1];
      LastAreCounts(front, name);
      if last.Complete? {
        CountedResult(front, last.id);
        CountedAtIsCount(front, last.id);
      }
    }
  }

  lemma {:induction false} CountedAtIsCount(events: seq<Event>, id: nat)
    ensures var c := CountedAt(events, id); c.Some? ==> c.value < |events| && events[c.value].Count?
    decreases |events|
  {
    if events != [] {
      CountedAtIsCount(events[..|events| - 1], id);
    }
  }

  /** They can disagree for good: the cron library lets a job overlap itself. */
  lemma SelfOverlapDisagrees(name: string, error: string) returns (events: seq<Event>)
    ensures Possible(events) && Quiet(After(events), name)
    ensures Gauge(After(events).gauges, name) == 0
    ensures ReadHealth(After(events).results, name).status == SERVICE_UNAVAILABLE
  {
    var failed, fine := Attempt(Some(error), None), Attempt(None, None);
    events := Then([], Begin(0, name));
    events := Then(events, Begin(1, name));
    events := Then(events, Count(0, failed));
    events := Then(events, Count(1, fine));
    events := Then(events, Complete(1));
    events := Then(events, Complete(0));
  }

  /** One more event at the end. */
  lemma Then(events: seq<Event>, e: Event) returns (more: seq<Event>)
    requires Possible(events) && Enabled(After(events), e)
    ensures Possible(more) && After(more) == Apply(After(events), e)
  {
    more := events + [e];
    assert more[..|more| - 1] == events;
  }
}
