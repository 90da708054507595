/**
 job.go: `BackupPaths` on Go slices. `append` writes into the spare capacity of the configured paths when
 there is any, so several results may share one backing array.
 */
module Slices {
  import opened Wrappers
  import opened Jobs
  import opened Tasks

  /** A slice that starts at its backing array's first element; the array's length is its capacity. */
  datatype Slice = Slice(backing: array<string>, len: nat)

  ghost predicate Fits(s: Slice) { s.len <= s.backing.Length }

  ghost function Contents(s: Slice): seq<string>
    requires Fits(s)
    reads s.backing
  {
    s.backing[..s.len]
  }

  /** The built-in `append` of one element: in place if it fits, else into a new array of any larger capacity. */
  method Append(s: Slice, x: string) returns (r: Slice)
    requires Fits(s)
    modifies s.backing
    ensures Fits(r) && Contents(r) == old(Contents(s)) + [x]
    ensures if s.len < s.backing.Length then r.backing == s.backing else fresh(r.backing)
    ensures forall k :: 0 <= k < s.backing.Length ==>
              s.backing[k] == if k == s.len then x else old(s.backing[k])
  {
    if s.len < s.backing.Length {
      s.backing[s.len] := x;
      r := Slice(s.backing, s.len + 1);
    } else {
      assert s.len + 1 > s.len;
      var capacity :| capacity > s.len;
      var grown := new string[capacity](i => "");
      forall i | 0 <= i < s.len {
        grown[i] := s.backing[i];
      }
      grown[s.len] := x;
      r := Slice(grown, s.len + 1);
    }
  }

  /** Cells of `now` from `n` on either kept their value or hold the element of `more` that belongs there. */
  ghost predicate OnlyFilled(was: seq<string>, now: seq<string>, n: nat, more: seq<string>) {
    && |now| == |was|
    && forall k :: 0 <= k < |now| ==> now[k] == was[k] || (n <= k < n + |more| && now[k] == more[k - n])
  }

  /** One `for _, t := range ... { paths = append(paths, t.DumpToPath) }`. */
  method AppendAll(s: Slice, more: seq<string>) returns (r: Slice)
    requires Fits(s)
    modifies s.backing
    ensures Fits(r) && Contents(r) == old(Contents(s)) + more
    ensures r.backing == s.backing || fresh(r.backing)
    ensures OnlyFilled(old(s.backing[..]), s.backing[..], s.len, more)
  {
    r := s;
    for i := 0 to |more|
      invariant Fits(r) && Contents(r) == old(Contents(s)) + more[..i]
      invariant r.backing == s.backing || fresh(r.backing)
      invariant OnlyFilled(old(s.backing[..]), s.backing[..], s.len, more[..i])
    {
      assert more[..i + 1] == more[..i] + [more[i]];
      r := Append(r, more[i]);
    }
    assert more[..|more|] == more;
  }

  lemma FilledTwice(a: seq<string>, b: seq<string>, c: seq<string>, n: nat, more: seq<string>, last: seq<string>)
    requires OnlyFilled(a, b, n, more) && OnlyFilled(b, c, n + |more|, last)
    ensures OnlyFilled(a, c, n, more + last)
  {
  }

  /** What earlier appends filled, and what a later one fills after them, is filled together. */
  method AppendAfter(base: Slice, s: Slice, done: seq<string>, more: seq<string>, ghost was: seq<string>) returns (r: Slice)
    requires Fits(base) && Fits(s) && s.len == base.len + |done|
    requires OnlyFilled(was, base.backing[..], base.len, done)
    modifies s.backing
    ensures Fits(r) && Contents(r) == old(Contents(s)) + more
    ensures r.backing == s.backing || fresh(r.backing)
    ensures OnlyFilled(was, base.backing[..], base.len, done + more)
  {
    r := AppendAll(s, more);
    if s.backing == base.backing {
      FilledTwice(was, old(base.backing[..]), base.backing[..], base.len, done, more);
    } else {
      assert base.backing[..] == old(base.backing[..]);
      assert forall k :: 0 <= k < |done| ==> (done + more)[k] == done[k];
    }
  }

  /** `BackupPaths`: the databases of each kind in turn. */
  method BackupPathsOn(paths: Slice, j: Job) returns (r: Slice)
    requires Fits(paths) && Contents(paths) == j.backup.paths
    modifies paths.backing
    ensures Fits(r) && Contents(r) == BackupPaths(j) && AllPaths(Contents(r), j)
    ensures r.backing == paths.backing || fresh(r.backing)
    ensures OnlyFilled(old(paths.backing[..]), paths.backing[..], paths.len, DumpPaths(Databases(j)))
  {
    ghost var was := paths.backing[..];
    BackupPathsAre(j);
    var mysql, postgres, sqlite := DumpPaths(MySQLs(j.mysql)), DumpPaths(Postgreses(j.postgres)), DumpPaths(Sqlites(j.sqlite));
    DumpPathsByKind(j);
    r := AppendAfter(paths, paths, [], mysql, was);
    assert [] + mysql == mysql;
    r := AppendAfter(paths, r, mysql, postgres, was);
    r := AppendAfter(paths, r, mysql + postgres, sqlite, was);
    Associative(j.backup.paths, mysql, postgres);
    Associative(j.backup.paths, mysql + postgres, sqlite);
  }

  /** Slices over one array hold `want` each, and the array holds the configured paths at its start. */
  ghost predicate AllHold(results: seq<Slice>, want: seq<string>)
    reads set s | s in results :: s.backing
  {
    forall s :: s in results ==> Fits(s) && Contents(s) == want
  }

  /**
   However many runs of one job ask for the paths, no call disturbs the configured paths or what an
   earlier call returned.
   */
  method BackupPathsRepeated(paths: Slice, j: Job, calls: nat) returns (results: seq<Slice>)
    requires Fits(paths) && Contents(paths) == j.backup.paths
    modifies paths.backing
    ensures |results| == calls && AllHold(results, BackupPaths(j)) && AllPaths(BackupPaths(j), j)
    ensures Contents(paths) == j.backup.paths
  {
    BackupPathsAre(j);
    results := [];
    for c := 0 to calls
      invariant |results| == c && AllHold(results, BackupPaths(j))
      invariant forall s :: s in results ==> s.backing == paths.backing || fresh(s.backing)
      invariant Contents(paths) == j.backup.paths
    {
      label Before:
      var r := BackupPathsOn(paths, j);
      ghost var was, now := old@Before(paths.backing[..]), paths.backing[..];
      assert Contents(paths) == j.backup.paths by {
        StaysFilled(was, now, paths.len, DumpPaths(Databases(j)), paths.len);
      }
      forall s | s in results ensures Contents(s) == BackupPaths(j) {
        if s.backing == paths.backing {
          StaysFilled(was, now, paths.len, DumpPaths(Databases(j)), s.len);
        }
      }
      results := results + [r];
    }
  }

  /** A prefix that already reads as the configured paths and some of the elements to fill in reads the same after. */
  lemma StaysFilled(was: seq<string>, now: seq<string>, n: nat, more: seq<string>, len: nat)
    requires OnlyFilled(was, now, n, more) && n <= len <= |was| && len <= n + |more|
    requires was[n..len] == more[..len - n]
    ensures now[..len] == was[..len]
  {
    forall k | 0 <= k < len ensures now[k] == was[k] {
      if n <= k {
        assert was[n..len][k - n] == more[k - n];
      }
    }
  }

  // ----- Overlapping calls -------------------------------------------------------------------------

  /** A call under way: how many elements it has appended, and its own array once it had to reallocate. */
  datatype Progress = Progress(appended: nat, own: Option<seq<string>>)

  /** The shared backing array, and the calls in the order they began. */
  datatype Memory = Memory(backing: seq<string>, calls: seq<Progress>)

  /** A new call begins, or a call appends its next element. */
  datatype Step = Begin | AppendNext(call: nat)

  predicate CanStep(m: Memory, step: Step, more: seq<string>) {
    step.AppendNext? ==> step.call < |m.calls| && m.calls[step.call].appended < |more|
  }

  /** The slice a call has built so far: a prefix of the shared array, or its own contents. */
  function Built(m: Memory, n: nat, call: nat): seq<string>
    requires call < |m.calls|
  {
    var p := m.calls[call];
    if p.own.Some? then p.own.value
    else if n + p.appended <= |m.backing| then m.backing[..n + p.appended]
    else []
  }

  /** One `append` of a call that started with the first `n` elements of the shared array. */
  function TakeStep(m: Memory, n: nat, step: Step, more: seq<string>): Memory
    requires CanStep(m, step, more)
  {
    match step
    case Begin => m.(calls := m.calls + [Progress(0, None)])
    case AppendNext(call) =>
      var p, x := m.calls[call], more[m.calls[call].appended];
      if p.own.None? && n + p.appended < |m.backing| then
        Memory(m.backing[n + p.appended := x], m.calls[call := Progress(p.appended + 1, None)])
      else
        m.(calls := m.calls[call := Progress(p.appended + 1, Some(Built(m, n, call) + [x]))])
  }

  predicate Interleaved(m: Memory, n: nat, steps: seq<Step>, m': Memory, more: seq<string>)
    decreases |steps|
  {
    if steps == [] then m' == m
    else CanStep(m, steps[0], more) && Interleaved(TakeStep(m, n, steps[0], more), n, steps[1..], m', more)
  }

  /** The configured elements stand, and every call has built them and the first elements to append. */
  ghost predicate InOrder(m: Memory, n: nat, configured: seq<string>, more: seq<string>) {
    && n == |configured| <= |m.backing| && m.backing[..n] == configured
    && forall c: nat :: c < |m.calls| ==>
         && m.calls[c].appended <= |more|
         && (m.calls[c].own.None? ==> n + m.calls[c].appended <= |m.backing|)
         && Built(m, n, c) == configured + more[..m.calls[c].appended]
  }

  lemma StepInOrder(m: Memory, n: nat, step: Step, configured: seq<string>, more: seq<string>)
    requires InOrder(m, n, configured, more) && CanStep(m, step, more)
    ensures InOrder(TakeStep(m, n, step, more), n, configured, more)
  {
    var m' := TakeStep(m, n, step, more);
    forall c: nat | c < |m'.calls| ensures Built(m', n, c) == configured + more[..m'.calls[c].appended] {
      if step.AppendNext? {
        var k := m.calls[step.call].appended;
        assert more[..k + 1] == more[..k] + [more[k]];
        if c != step.call && m.calls[c].own.None? {
          SharedCell(m.backing, n, m.calls[c].appended, k, configured, more);
        }
      }
    }
  }

  /** Writing the element that belongs to a cell does not change what a slice over the array reads. */
  lemma SharedCell(backing: seq<string>, n: nat, appended: nat, k: nat, configured: seq<string>, more: seq<string>)
    requires n == |configured| && appended <= |more| && k < |more| && n + appended <= |backing|
    requires backing[..n + appended] == configured + more[..appended]
    ensures n + k < |backing| ==> backing[n + k := more[k]][..n + appended] == configured + more[..appended]
  {
    if n + k < |backing| && k < appended {
      assert backing[..n + appended][n + k] == more[k];
    }
  }

  /**
   Calls of overlapping runs of one job, interleaved append by append, in place and not: at every moment
   every call has built the configured paths and the dump paths it has appended, and the configured
   paths are as they were.
   */
  lemma {:induction false} OverlappingCalls(m: Memory, n: nat, steps: seq<Step>, m': Memory, configured: seq<string>, more: seq<string>)
    requires InOrder(m, n, configured, more) && Interleaved(m, n, steps, m', more)
    ensures InOrder(m', n, configured, more)
    decreases |steps|
  {
    if steps != [] {
      StepInOrder(m, n, steps[0], configured, more);
      OverlappingCalls(TakeStep(m, n, steps[0], more), n, steps[1..], m', configured, more);
    }
  }

  /** So a call that has finished, with others still under way, holds all backup paths. */
  lemma BackupPathsOverlapping(j: Job, backing: seq<string>, steps: seq<Step>, m: Memory, c: nat)
    requires |j.backup.paths| <= |backing| && backing[..|j.backup.paths|] == j.backup.paths
    requires Interleaved(Memory(backing, []), |j.backup.paths|, steps, m, DumpPaths(Databases(j)))
    requires c < |m.calls| && m.calls[c].appended == |Databases(j)|
    ensures Built(m, |j.backup.paths|, c) == BackupPaths(j) && AllPaths(BackupPaths(j), j)
    ensures |j.backup.paths| <= |m.backing| && m.backing[..|j.backup.paths|] == j.backup.paths
  {
    var more := DumpPaths(Databases(j));
    BackupPathsAre(j);
    OverlappingCalls(Memory(backing, []), |j.backup.paths|, steps, m, j.backup.paths, more);
    assert more[..|more|] == more;
  }
}
