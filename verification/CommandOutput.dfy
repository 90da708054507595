/**
 Captured process output (shell.go) and what restic.go reads from it: the missing-repository test and
 the text handed to the JSON parser. A process divides its output into writes as it likes.
 */
module CommandOutput {
  import opened Wrappers
  import opened Text

  /** The lines recorded for a sequence of writes: each write is split on its own. */
  function CapturedLines(writes: seq<string>): seq<string> {
    if writes == [] then [] else CapturedLines(writes[..|writes| - 1]) + Split(writes[|writes| - 1], '\n')
  }

  class CapturedLogWriter {
    var lines: seq<string>
    /** Everything written so far, one element per call of Write. */
    ghost var writes: seq<string>

    ghost predicate Valid()
      reads this
    {
      lines == CapturedLines(writes)
    }

    constructor ()
      ensures Valid() && lines == [] && writes == []
    {
      lines, writes := [], [];
    }

    method Write(content: string) returns (n: nat)
      requires Valid()
      modifies this
      ensures Valid()
      ensures writes == old(writes) + [content]
      ensures n == |content|
    {
      var pieces := Split(content, '\n');
      for i := 0 to |pieces|
        invariant lines == old(lines) + pieces[..i]
        invariant writes == old(writes)
      {
        lines := lines + [pieces[i]];
      }
      writes := writes + [content];
      assert writes[..|writes| - 1] == old(writes);
      n := |content|;
    }
  }

  /** What a running process sends to one of its output streams, captured. */
  method Capture(chunks: seq<string>) returns (w: CapturedLogWriter)
    ensures fresh(w) && w.Valid() && w.writes == chunks
  {
    w := new CapturedLogWriter();
    for i := 0 to |chunks|
      invariant fresh(w) && w.Valid() && w.writes == chunks[..i]
    {
      var _ := w.Write(chunks[i]);
    }
  }

  /** Joining the recorded lines with newlines gives the writes joined with newlines. */
  lemma {:induction false} JoinedLines(writes: seq<string>)
    ensures Join(CapturedLines(writes), "\n") == Join(writes, "\n")
    ensures CapturedLines(writes) == [] <==> writes == []
  {
    if writes != [] {
      var n := |writes| - 1;
      var before, last := writes[..n], writes[n];
      assert writes == before + [last];
      JoinedLines(before);
      JoinSplit(last, '\n');
      if before == [] {
        assert CapturedLines(writes) == Split(last, '\n');
      } else {
        JoinConcat(CapturedLines(before), Split(last, '\n'), "\n");
        JoinConcat(before, [last], "\n");
      }
    }
  }

  /** The recorded lines one after the other are the whole output without its newlines. */
  lemma {:induction false} FlattenedLines(writes: seq<string>)
    ensures Flatten(CapturedLines(writes)) == Without(Flatten(writes), '\n')
  {
    if writes != [] {
      var n := |writes| - 1;
      var before, last := writes[..n], writes[n];
      assert writes == before + [last];
      FlattenedLines(before);
      FlattenSplit(last, '\n');
      FlattenConcat(CapturedLines(before), Split(last, '\n'));
      FlattenConcat(before, [last]);
      assert Flatten([last]) == last;
      WithoutConcat(Flatten(before), last, '\n');
    }
  }

  const REPOSITORY_MISSING := "Is there a " + "repository at " + "the following" + " location?"

  lemma PhraseText()
    ensures REPOSITORY_MISSING == "Is there a repository at the following location?"
  {
  }

  lemma PhraseIsOneLine()
    ensures '\n' !in REPOSITORY_MISSING
  {
    assert '\n' !in "Is there a " && '\n' !in "repository at ";
    assert '\n' !in "the following" && '\n' !in " location?";
  }

  datatype CommandResult = Succeeded | RepoNotFound | ResticFailed

  /**
   How `RunRestic` classifies a finished command. A failure counts as a missing repository exactly
   when one single write to stderr holds the whole phrase.
   */
  method Classify(failed: bool, stderr: CapturedLogWriter) returns (r: CommandResult)
    requires stderr.Valid()
    ensures r == Succeeded <==> !failed
    ensures r == RepoNotFound <==> failed && Detected(stderr.writes)
    ensures r == RepoNotFound <==>
            failed && exists w :: w in stderr.writes && Contains(w, "Is there a repository at the following location?")
  {
    PhraseText();
    JoinedLines(stderr.writes);
    PhraseIsOneLine();
    ContainsJoin(stderr.writes, '\n', REPOSITORY_MISSING);
    r := Succeeded;
    if failed {
      r := ResticFailed;
      var singleLineOutput := Join(stderr.lines, "\n");
      if Contains(singleLineOutput, REPOSITORY_MISSING) {
        r := RepoNotFound;
      }
    }
  }

  lemma {:induction false} ContainsInFlatten(writes: seq<string>, w: string, sub: string)
    requires w in writes && Contains(w, sub)
    ensures Contains(Flatten(writes), sub)
  {
    if writes[0] != w {
      ContainsInFlatten(writes[1..], w, sub);
    }
    ContainsConcat(writes[0], Flatten(writes[1..]), sub);
  }

  /** Written like this, a failed command counts as a missing repository. */
  ghost predicate Detected(writes: seq<string>) { exists w :: w in writes && Contains(w, REPOSITORY_MISSING) }

  /** A stream written one character at a time. */
  function Singly(s: string): (writes: seq<string>)
    ensures Flatten(writes) == s
    ensures forall w :: w in writes ==> |w| == 1
  {
    if s == "" then [] else [[s[0]]] + Singly(s[1..])
  }

  /**
   Detection against the stream itself. Some division of a stream into writes is detected exactly if the
   stream holds the phrase, so a detection is never wrong; but every stream also has a division that
   goes undetected.
   */
  lemma DetectionDependsOnWrites(s: string)
    ensures (exists writes :: Flatten(writes) == s && Detected(writes)) <==> Contains(s, REPOSITORY_MISSING)
    ensures Flatten(Singly(s)) == s && !Detected(Singly(s))
  {
    if writes :| Flatten(writes) == s && Detected(writes) {
      var w :| w in writes && Contains(w, REPOSITORY_MISSING);
      ContainsInFlatten(writes, w, REPOSITORY_MISSING);
    }
    if Contains(s, REPOSITORY_MISSING) {
      assert s in [s] && Flatten([s]) == s + Flatten([]) == s;
      assert Detected([s]);
    }
    forall w | w in Singly(s) ensures !Contains(w, REPOSITORY_MISSING) {
      assert |w| < |REPOSITORY_MISSING|;
    }
  }

  /**
   The text `ReadSnapshots` hands to the JSON parser: nothing when no write occurred, otherwise the
   whole output without its newlines, however it was divided.
   */
  method SnapshotText(stdout: CapturedLogWriter) returns (text: Option<string>)
    requires stdout.Valid()
    ensures text == if stdout.writes == [] then None else Some(Without(Flatten(stdout.writes), '\n'))
  {
    JoinedLines(stdout.writes);
    if |stdout.lines| == 0 {
      return None;
    }
    JoinEmptySeparator(stdout.lines);
    FlattenedLines(stdout.writes);
    text := Some(Join(stdout.lines, ""));
  }

  /** `strings.Compare` order: `a` sorts before `b`. */
  predicate Less(a: string, b: string) {
    if b == "" then false
    else if a == "" then true
    else a[0] < b[0] || (a[0] == b[0] && Less(a[1..], b[1..]))
  }

  /** `a` may stand before `b`: it is a prefix of `b`, or it holds the smaller character where they first differ. */
  ghost predicate Ascends(a: string, b: string) {
    a <= b || exists k :: 0 <= k < |a| && k < |b| && a[..k] == b[..k] && a[k] < b[k]
  }

  ghost predicate Sorted(s: seq<string>) {
    forall i, j :: 0 <= i < j < |s| ==> Ascends(s[i], s[j])
  }

  lemma AscendsLonger(c: char, a: string, b: string)
    requires Ascends(a, b)
    ensures Ascends([c] + a, [c] + b)
  {
    var a', b' := [c] + a, [c] + b;
    if !(a <= b) {
      var k :| 0 <= k < |a| && k < |b| && a[..k] == b[..k] && a[k] < b[k];
      assert a'[..k + 1] == [c] + a[..k] == [c] + b[..k] == b'[..k + 1];
      assert a'[k + 1] < b'[k + 1];
    }
  }

  lemma AscendsShorter(c: char, a: string, b: string)
    requires Ascends([c] + a, [c] + b)
    ensures Ascends(a, b)
  {
    var a', b' := [c] + a, [c] + b;
    if a' <= b' {
      forall i | 0 <= i < |a| ensures a[i] == b[i] {
        assert a'[i + 1] == b'[i + 1];
      }
    } else {
      var k :| 0 <= k < |a'| && k < |b'| && a'[..k] == b'[..k] && a'[k] < b'[k];
      assert k > 0 && a[k - 1] == a'[k] < b'[k] == b[k - 1];
      forall i | 0 <= i < k - 1 ensures a[i] == b[i] {
        assert a'[..k][i + 1] == b'[..k][i + 1];
      }
      assert a[..k - 1] == b[..k - 1];
    }
  }

  /** That is what the comparison decides. */
  lemma {:induction false} AscendsExactly(a: string, b: string)
    ensures Ascends(a, b) <==> !Less(b, a)
  {
    if a != "" && b != "" && a[0] == b[0] {
      AscendsExactly(a[1..], b[1..]);
      assert a == [a[0]] + a[1..] && b == [a[0]] + b[1..];
      if Ascends(a, b) {
        AscendsShorter(a[0], a[1..], b[1..]);
      } else if Ascends(a[1..], b[1..]) {
        AscendsLonger(a[0], a[1..], b[1..]);
      }
    } else if a != "" && b != "" {
      assert a[..0] == b[..0];
    }
  }

  lemma {:induction false} LessTotal(a: string, b: string)
    ensures Less(a, b) || Less(b, a) <==> a != b
    ensures !(Less(a, b) && Less(b, a))
  {
    if a != "" && b != "" {
      LessTotal(a[1..], b[1..]);
      assert a == [a[0]] + a[1..] && b == [b[0]] + b[1..];
    }
  }

  lemma {:induction false} LessTransitive(a: string, b: string, c: string)
    requires !Less(b, a) && !Less(c, b)
    ensures !Less(c, a)
  {
    if a != "" && b != "" && c != "" && a[0] == b[0] == c[0] {
      LessTransitive(a[1..], b[1..], c[1..]);
    }
  }

  lemma SameLeast(s: seq<string>, t: seq<string>)
    requires Sorted(s) && Sorted(t) && multiset(s) == multiset(t) && s != []
    ensures t != [] && s[0] == t[0]
  {
    assert s[0] in multiset(t);
    var i :| 0 <= i < |t| && t[i] == s[0];
    assert t[0] in multiset(s);
    var j :| 0 <= j < |s| && s[j] == t[0];
    assert i > 0 ==> Ascends(t[0], t[i]);
    assert j > 0 ==> Ascends(s[0], s[j]);
    AscendsExactly(s[0], t[0]);
    AscendsExactly(t[0], s[0]);
    LessTotal(s[0], t[0]);
  }

  /** A sorted list is determined by which lines it holds and how often. */
  lemma {:induction false} SortedUnique(s: seq<string>, t: seq<string>)
    requires Sorted(s) && Sorted(t) && multiset(s) == multiset(t)
    ensures s == t
  {
    if s == [] {
      assert |multiset(t)| == 0;
    } else {
      SameLeast(s, t);
      assert s == [s[0]] + s[1..] && t == [t[0]] + t[1..];
      assert multiset(s[1..]) == multiset(s) - multiset{s[0]};
      assert multiset(t[1..]) == multiset(t) - multiset{t[0]};
      SortedUnique(s[1..], t[1..]);
    }
  }

  lemma InsertSorted(s: seq<string>, i: nat, x: string)
    requires Sorted(s) && i <= |s|
    requires i > 0 ==> !Less(x, s[i - 1])
    requires forall k :: i <= k < |s| ==> Less(x, s[k])
    ensures Sorted(s[..i] + [x] + s[i..])
  {
    forall k | 0 <= k < i ensures Ascends(s[k], x) {
      LessTotal(s[i - 1], s[k]);
      AscendsExactly(s[k], s[i - 1]);
      LessTransitive(s[k], s[i - 1], x);
      AscendsExactly(s[k], x);
    }
    forall k | i <= k < |s| ensures Ascends(x, s[k]) {
      LessTotal(x, s[k]);
      AscendsExactly(x, s[k]);
    }
  }

  method SortInsert(s: seq<string>, x: string) returns (r: seq<string>)
    requires Sorted(s)
    ensures Sorted(r) && multiset(r) == multiset(s) + multiset{x}
  {
    var i := |s|;
    while i > 0 && Less(x, s[i - 1])
      invariant 0 <= i <= |s|
      invariant forall k :: i <= k < |s| ==> Less(x, s[k])
    {
      i := i - 1;
    }
    InsertSorted(s, i, x);
    r := s[..i] + [x] + s[i..];
    assert s == s[..i] + s[i..];
  }

  /** `LinesMergedWith`: the lines of both streams, sorted. */
  method LinesMergedWith(w: CapturedLogWriter, other: CapturedLogWriter) returns (allLines: seq<string>)
    ensures Sorted(allLines)
    ensures multiset(allLines) == multiset(w.lines) + multiset(other.lines)
  {
    allLines := [];
    var source := w.lines + other.lines;
    for i := 0 to |source|
      invariant Sorted(allLines) && multiset(allLines) == multiset(source[..i])
    {
      assert source[..i + 1] == source[..i] + [source[i]];
      allLines := SortInsert(allLines, source[i]);
    }
    assert source[..|source|] == source;
  }
}
