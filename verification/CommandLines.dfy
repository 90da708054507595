/**
 restic.go: what the encoders write, option by option, next to the names restic itself reads. The tables
 of options do not appear in the statements here, so a wrong name, order or separator in them would show.
 */
module CommandLines {
  import opened Wrappers
  import opened Text
  import opened Utils
  import opened Arguments
  import opened ResticOptions
  import opened ResticCommand

  /** One option of a record: a text, a number, a duration, a flag, or a list of values. */
  datatype Part =
    | Given(name: string, value: string)
    | Counted(name: string, number: int)
    | Timed(name: string, duration: int)
    | Flag(name: string, on: bool)
    | Each(name: string, values: seq<string>)

  /** What it is on the command line; only what is set appears. */
  function Tokens(part: Part, clock: DurationText): seq<string> {
    match part
    case Given(name, value) => if value == "" then [] else [name, value]
    case Counted(name, number) => if number > 0 then [name, Decimal(number)] else []
    case Timed(name, duration) => if duration > 0 then [name, clock.print_(duration)] else []
    case Flag(name, on) => if on then [name] else []
    case Each(name, values) => Repeated(name, values)
  }

  function AllTokens(parts: seq<Part>, clock: DurationText): seq<string> {
    if parts == [] then []
    else AllTokens(parts[..|parts| - 1], clock) + Tokens(parts[|parts| - 1], clock)
  }

  /** Every list with its tags joined by commas. */
  function Joined(lists: seq<TagList>): seq<string> {
    seq(|lists|, i requires 0 <= i < |lists| => Join(lists[i], ","))
  }

  /** Every entry as key, equals sign and value in quotes. */
  function Quotes(order: seq<string>, options: map<string, string>): seq<string>
    requires forall k :: k in order ==> k in options
  {
    seq(|order|, i requires 0 <= i < |order| => order[i] + "='" + options[order[i]] + "'")
  }

  // ----- From a table and its rows to such parts ---------------------------------------------------

  /** Option `n` of a layout is this part. */
  ghost predicate IsPart(t: Table, rows: seq<seq<string>>, clock: DurationText, n: nat, part: Part) {
    n < |t| && n < |rows| && t[n].name == part.name && t[n].valued == !part.Flag? &&
    match part
    case Given(_, value) => rows[n] == StringRow(value)
    case Counted(_, number) => rows[n] == IntRow(number)
    case Timed(_, duration) => rows[n] == DurationRow(clock, duration)
    case Flag(_, on) => rows[n] == BoolRow(on)
    case Each(_, values) => rows[n] == values
  }

  lemma PartTokens(t: Table, rows: seq<seq<string>>, clock: DurationText, n: nat, part: Part)
    requires IsPart(t, rows, clock, n, part)
    ensures OptionArgs(t[n], rows[n]) == Tokens(part, clock)
  {
    if !part.Flag? {
      RepeatedIsOption(t[n], rows[n]);
    }
  }

  /** The options from `n` on are these parts. */
  ghost predicate Match(t: Table, rows: seq<seq<string>>, clock: DurationText, n: nat, parts: seq<Part>) {
    |t| == |rows| && n + |parts| <= |t| && forall i :: 0 <= i < |parts| ==> IsPart(t, rows, clock, n + i, parts[i])
  }

  lemma MatchMore(t: Table, rows: seq<seq<string>>, clock: DurationText, n: nat, a: seq<Part>, b: seq<Part>)
    requires Match(t, rows, clock, n, a) && Match(t, rows, clock, n + |a|, b)
    ensures Match(t, rows, clock, n, a + b)
  {
    forall i | 0 <= i < |a + b| ensures IsPart(t, rows, clock, n + i, (a + b)[i]) {
      if i >= |a| {
        assert (a + b)[i] == b[i - |a|] && n + i == n + |a| + (i - |a|);
      }
    }
  }

  lemma LaidMore(t: Table, rows: seq<seq<string>>, clock: DurationText, front: seq<Part>, n: nat, part: Part)
    requires IsPart(t, rows, clock, n, part) && Laid(t, rows, n) == AllTokens(front, clock)
    ensures Laid(t, rows, n + 1) == AllTokens(front + [part], clock)
  {
    PartTokens(t, rows, clock, n, part);
    assert (front + [part])[..|front|] == front;
  }

  lemma MatchFront(t: Table, rows: seq<seq<string>>, clock: DurationText, front: seq<Part>, last: Part)
    requires Match(t, rows, clock, 0, front + [last])
    ensures Match(t, rows, clock, 0, front) && IsPart(t, rows, clock, |front|, last)
  {
    var parts := front + [last];
    forall i | 0 <= i < |parts| ensures IsPart(t, rows, clock, i, parts[i]) {
      assert IsPart(t, rows, clock, 0 + i, parts[i]);
    }
    assert parts[|front|] == last && forall i :: 0 <= i < |front| ==> parts[i] == front[i];
  }

  lemma {:induction false} LaidOneByOne(t: Table, rows: seq<seq<string>>, clock: DurationText, parts: seq<Part>)
    requires Match(t, rows, clock, 0, parts)
    ensures Laid(t, rows, |parts|) == AllTokens(parts, clock)
    decreases |parts|
  {
    if parts != [] {
      var front, last := parts[..|parts| - 1], parts[|parts| - 1];
      assert parts == front + [last];
      MatchFront(t, rows, clock, front, last);
      LaidOneByOne(t, rows, clock, front);
      LaidMore(t, rows, clock, front, |front|, last);
    }
  }

  lemma EncodedIs(t: Table, rows: seq<seq<string>>, clock: DurationText, parts: seq<Part>)
    requires Match(t, rows, clock, 0, parts) && |parts| == |t|
    ensures Encoded(t, rows) == AllTokens(parts, clock)
  {
    LaidOneByOne(t, rows, clock, parts);
  }

  // ----- The records -------------------------------------------------------------------------------

  function BackupLine(bo: BackupOpts): seq<Part> {
    [Each("--exclude", bo.exclude), Each("--include", bo.includes), Each("--tag", bo.tags), Given("--host", bo.host)]
  }

  lemma BackupTokens(bo: BackupOpts, clock: DurationText)
    ensures Encoded(BACKUP_OPTIONS, BackupRows(bo)) == AllTokens(BackupLine(bo), clock)
  {
    BackupMatches(bo, clock, BACKUP_OPTIONS, BackupRows(bo));
    EncodedIs(BACKUP_OPTIONS, BackupRows(bo), clock, BackupLine(bo));
  }

  lemma BackupMatches(bo: BackupOpts, clock: DurationText, t: Table, rows: seq<seq<string>>)
    requires BackupLayout(bo, t, rows)
    ensures Match(t, rows, clock, 0, BackupLine(bo))
  {
  }

  function RestoreLine(ro: RestoreOpts): seq<Part> {
    [Each("--exclude", ro.exclude), Each("--include", ro.includes), Each("--host", ro.host), Each("--tag", ro.tags),
     Given("--path", ro.path), Given("--target", ro.target), Flag("--verify", ro.verifies)]
  }

  lemma RestoreTokens(ro: RestoreOpts, clock: DurationText)
    ensures Encoded(RESTORE_OPTIONS, RestoreRows(ro)) == AllTokens(RestoreLine(ro), clock)
  {
    RestoreMatches(ro, clock, RESTORE_OPTIONS, RestoreRows(ro));
    EncodedIs(RESTORE_OPTIONS, RestoreRows(ro), clock, RestoreLine(ro));
  }

  lemma RestoreMatches(ro: RestoreOpts, clock: DurationText, t: Table, rows: seq<seq<string>>)
    requires RestoreLayout(ro, t, rows)
    ensures Match(t, rows, clock, 0, RestoreLine(ro))
  {
  }

  function ForgetLine(fo: ForgetOpts): seq<Part> {
    CountLine(fo) + WithinLine(fo) + PruneLine(fo)
  }

  function CountLine(fo: ForgetOpts): seq<Part> {
    [Counted("--keep-last", fo.keepLast), Counted("--keep-hourly", fo.keepHourly), Counted("--keep-daily", fo.keepDaily),
     Counted("--keep-weekly", fo.keepWeekly), Counted("--keep-monthly", fo.keepMonthly), Counted("--keep-yearly", fo.keepYearly)]
  }

  function WithinLine(fo: ForgetOpts): seq<Part> {
    [Timed("--keep-within", fo.keepWithin), Timed("--keep-within-hourly", fo.keepWithinHourly),
     Timed("--keep-within-daily", fo.keepWithinDaily), Timed("--keep-within-weekly", fo.keepWithinWeekly),
     Timed("--keep-within-monthly", fo.keepWithinMonthly), Timed("--keep-within-yearly", fo.keepWithinYearly)]
  }

  function PruneLine(fo: ForgetOpts): seq<Part> {
    [Each("--tag", Joined(fo.tags)), Each("--keep-tag", Joined(fo.keepTags)), Flag("--prune", fo.prune)]
  }

  lemma ForgetTokens(fo: ForgetOpts, clock: DurationText)
    ensures Encoded(FORGET_OPTIONS, ForgetRows(fo, clock)) == AllTokens(ForgetLine(fo), clock)
  {
    ForgetLayout(fo, clock);
    ForgetMiddleLayout(fo, clock);
    ForgetMatches(fo, clock, FORGET_OPTIONS, ForgetRows(fo, clock));
    EncodedIs(FORGET_OPTIONS, ForgetRows(fo, clock), clock, ForgetLine(fo));
  }

  lemma ForgetMatches(fo: ForgetOpts, clock: DurationText, t: Table, rows: seq<seq<string>>)
    requires ForgetCountsLayout(fo, t, rows) && ForgetWithinLayout(fo, clock, t, rows) && ForgetTagsLayout(fo, t, rows)
    ensures Match(t, rows, clock, 0, ForgetLine(fo)) && |ForgetLine(fo)| == |t|
  {
    CountMatches(fo, clock, t, rows);
    WithinMatches(fo, clock, t, rows);
    PruneMatches(fo, clock, t, rows);
    MatchMore(t, rows, clock, 0, CountLine(fo), WithinLine(fo));
    MatchMore(t, rows, clock, 0, CountLine(fo) + WithinLine(fo), PruneLine(fo));
  }

  lemma CountMatches(fo: ForgetOpts, clock: DurationText, t: Table, rows: seq<seq<string>>)
    requires |t| == |rows| && ForgetCountsLayout(fo, t, rows)
    ensures Match(t, rows, clock, 0, CountLine(fo))
  {
  }

  lemma WithinMatches(fo: ForgetOpts, clock: DurationText, t: Table, rows: seq<seq<string>>)
    requires |t| == |rows| && ForgetWithinLayout(fo, clock, t, rows)
    ensures Match(t, rows, clock, 6, WithinLine(fo))
  {
  }

  lemma PruneMatches(fo: ForgetOpts, clock: DurationText, t: Table, rows: seq<seq<string>>)
    requires ForgetTagsLayout(fo, t, rows)
    ensures Match(t, rows, clock, 12, PruneLine(fo))
  {
    assert TagRow(fo.tags) == Joined(fo.tags) && TagRow(fo.keepTags) == Joined(fo.keepTags);
  }

  function GlobalLine(glo: ResticGlobalOpts, order: seq<string>): seq<Part>
    requires forall k :: k in order ==> k in glo.options
  {
    ValueLine(glo) + FlagLine(glo) + [Each("--option", Quotes(order, glo.options))]
  }

  function ValueLine(glo: ResticGlobalOpts): seq<Part> {
    [Given("--cacert", glo.caCertFile), Given("--cache-dir", glo.cacheDir), Given("--password-file", glo.passwordFile),
     Given("--tls-client-cert", glo.tlsClientCertFile), Counted("--limit-download", glo.limitDownload),
     Counted("--limit-upload", glo.limitUpload), Counted("--verbose", glo.verboseLevel)]
  }

  function FlagLine(glo: ResticGlobalOpts): seq<Part> {
    [Flag("--cleanup-cache", glo.cleanupCache), Flag("--insecure-tls", glo.insecureTls),
     Flag("--no-cache", glo.noCache), Flag("--no-lock", glo.noLock)]
  }

  lemma GlobalTokens(glo: ResticGlobalOpts, order: seq<string>, clock: DurationText)
    requires forall k :: k in order ==> k in glo.options
    ensures Encoded(GLOBAL_OPTIONS, GlobalRows(glo, order)) == AllTokens(GlobalLine(glo, order), clock)
  {
    GlobalHeadLayout(glo, order);
    GlobalLayout(glo, order);
    GlobalMatches(glo, order, clock, GLOBAL_OPTIONS, GlobalRows(glo, order));
    EncodedIs(GLOBAL_OPTIONS, GlobalRows(glo, order), clock, GlobalLine(glo, order));
  }

  lemma GlobalMatches(glo: ResticGlobalOpts, order: seq<string>, clock: DurationText, t: Table, rows: seq<seq<string>>)
    requires GlobalValuesLayout(glo, t, rows) && GlobalFlagsLayout(glo, t, rows)
    requires (forall k :: k in order ==> k in glo.options) && rows[11] == OptionRow(order, glo.options)
    ensures Match(t, rows, clock, 0, GlobalLine(glo, order)) && |GlobalLine(glo, order)| == |t|
  {
    var entries := [Each("--option", Quotes(order, glo.options))];
    ValueMatches(glo, clock, t, rows);
    FlagMatches(glo, clock, t, rows);
    assert OptionRow(order, glo.options) == Quotes(order, glo.options);
    assert Match(t, rows, clock, 11, entries);
    MatchMore(t, rows, clock, 0, ValueLine(glo), FlagLine(glo));
    MatchMore(t, rows, clock, 0, ValueLine(glo) + FlagLine(glo), entries);
  }

  lemma ValueMatches(glo: ResticGlobalOpts, clock: DurationText, t: Table, rows: seq<seq<string>>)
    requires |t| == |rows| && GlobalValuesLayout(glo, t, rows)
    ensures Match(t, rows, clock, 0, ValueLine(glo))
  {
  }

  lemma FlagMatches(glo: ResticGlobalOpts, clock: DurationText, t: Table, rows: seq<seq<string>>)
    requires GlobalFlagsLayout(glo, t, rows)
    ensures Match(t, rows, clock, 7, FlagLine(glo))
  {
  }

  // ----- Whole command lines -----------------------------------------------------------------------

  function OptionLine(inv: Invocation, clock: DurationText): seq<string> {
    match inv
    case Backup(_, opts) => AllTokens(BackupLine(opts), clock)
    case Restore(_, opts) => AllTokens(RestoreLine(opts), clock)
    case Forget(opts) => AllTokens(ForgetLine(opts), clock)
    case Unlock(opts) => if opts.removeAll then ["--remove-all"] else []
    case Snapshots(json) => if json then ["--json"] else []
    case Check => []
    case Init => []
  }

  function CommandLine(inv: Invocation, clock: DurationText): seq<string> {
    match inv
    case Backup(files, _) => ["backup"] + OptionLine(inv, clock) + files
    case Restore(snapshot, _) => ["restore"] + OptionLine(inv, clock) + [snapshot]
    case Forget(_) => ["forget"] + OptionLine(inv, clock)
    case Unlock(_) => ["unlock"] + OptionLine(inv, clock)
    case Snapshots(_) => ["snapshots"] + OptionLine(inv, clock)
    case Check => ["check"]
    case Init => ["init"]
  }

  lemma SingleFlag(name: string, on: bool)
    ensures Encoded([OptionSpec(name, false)], [BoolRow(on)]) == if on then [name] else []
  {
    var t, rows := [OptionSpec(name, false)], [BoolRow(on)];
    assert Laid(t, rows, 1) == [] + OptionArgs(t[0], rows[0]);
  }

  lemma OptionsWritten(inv: Invocation, clock: DurationText)
    ensures OptionsEncoded(inv, clock) == OptionLine(inv, clock)
  {
    match inv {
      case Backup(_, opts) => BackupTokens(opts, clock);
      case Restore(_, opts) => RestoreTokens(opts, clock);
      case Forget(opts) => ForgetTokens(opts, clock);
      case Unlock(opts) => SingleFlag("--remove-all", opts.removeAll);
      case Snapshots(json) => SingleFlag("--json", json);
      case Check =>
      case Init =>
    }
  }

  lemma OptionsInLine(inv: Invocation, clock: DurationText, options: seq<string>)
    requires options == OptionLine(inv, clock)
    ensures CommandLine(inv, clock) == [CommandName(inv)] + (options + Positionals(inv))
  {
    Associative([CommandName(inv)], options, Positionals(inv));
    assert options + [] == options;
  }

  /** The whole command line: the global options, the repository, and the command with its own. */
  lemma ArgvIs(call: Call, order: seq<string>, clock: DurationText)
    requires forall k :: k in order ==> k in OptionMap(call.global)
    ensures Argv(call, order, clock) ==
            (if call.global.Some? then AllTokens(GlobalLine(call.global.value, order), clock) else [])
            + ["--repo", call.repo] + CommandLine(call.invocation, clock)
  {
    OptionsWritten(call.invocation, clock);
    OptionsInLine(call.invocation, clock, OptionsEncoded(call.invocation, clock));
    if call.global.Some? {
      GlobalTokens(call.global.value, order, clock);
    }
  }

  // ----- Nothing configured ------------------------------------------------------------------------

  ghost predicate Unset(parts: seq<Part>, clock: DurationText) {
    forall i :: 0 <= i < |parts| ==> Tokens(parts[i], clock) == []
  }

  lemma {:induction false} NothingWritten(parts: seq<Part>, clock: DurationText)
    requires Unset(parts, clock)
    ensures AllTokens(parts, clock) == []
    decreases |parts|
  {
    if parts != [] {
      NothingWritten(parts[..|parts| - 1], clock);
    }
  }

  /** A block with nothing set, or no block at all, adds no token to the command line. */
  lemma NothingSet(files: seq<string>, snapshot: string, clock: DurationText)
    ensures CommandTokens(Backup(files, BackupOpts([], [], [], "")), clock) == ["backup"] + files
    ensures CommandTokens(Restore(snapshot, RestoreOpts([], [], [], [], "", "", false)), clock) == ["restore", snapshot]
  {
    NoBackupOptions(BackupOpts([], [], [], ""), clock);
    NoRestoreOptions(RestoreOpts([], [], [], [], "", "", false), clock);
    assert [] + files == files && [] + [snapshot] == [snapshot];
  }

  lemma NoBackupOptions(bo: BackupOpts, clock: DurationText)
    requires bo.exclude == bo.includes == bo.tags == [] && bo.host == ""
    ensures Encoded(BACKUP_OPTIONS, BackupRows(bo)) == []
  {
    BackupTokens(bo, clock);
    NothingWritten(BackupLine(bo), clock);
  }

  lemma NoRestoreOptions(ro: RestoreOpts, clock: DurationText)
    requires ro.exclude == ro.includes == ro.host == ro.tags == [] && ro.path == ro.target == "" && !ro.verifies
    ensures Encoded(RESTORE_OPTIONS, RestoreRows(ro)) == []
  {
    RestoreTokens(ro, clock);
    NothingWritten(RestoreLine(ro), clock);
  }

  lemma NothingGlobal(global: Option<ResticGlobalOpts>, clock: DurationText)
    requires global.Some? ==> global.value == ResticGlobalOpts("", "", "", "", 0, 0, 0, false, false, false, false, map[])
    ensures GlobalEncoded(global, []) == []
  {
    if global.Some? {
      var entries := [Each("--option", Quotes([], map[]))];
      GlobalTokens(global.value, [], clock);
      UnsetTogether(ValueLine(global.value), FlagLine(global.value), entries, clock);
      NothingWritten(GlobalLine(global.value, []), clock);
    }
  }

  predicate NoCounts(fo: ForgetOpts) {
    && fo.keepLast <= 0 && fo.keepHourly <= 0 && fo.keepDaily <= 0
    && fo.keepWeekly <= 0 && fo.keepMonthly <= 0 && fo.keepYearly <= 0
  }

  predicate NoWithin(fo: ForgetOpts) {
    && fo.keepWithin <= 0 && fo.keepWithinHourly <= 0 && fo.keepWithinDaily <= 0
    && fo.keepWithinWeekly <= 0 && fo.keepWithinMonthly <= 0 && fo.keepWithinYearly <= 0
  }

  /** The numbers of a forget count only when they are positive. */
  lemma NothingKept(fo: ForgetOpts, clock: DurationText)
    requires NoCounts(fo) && NoWithin(fo) && fo.tags == fo.keepTags == [] && !fo.prune
    ensures CommandTokens(Forget(fo), clock) == ["forget"]
  {
    ForgetTokens(fo, clock);
    CountsUnset(fo, clock);
    WithinUnset(fo, clock);
    UnsetTogether(CountLine(fo), WithinLine(fo), PruneLine(fo), clock);
    NothingWritten(ForgetLine(fo), clock);
  }

  lemma CountsUnset(fo: ForgetOpts, clock: DurationText)
    requires NoCounts(fo)
    ensures Unset(CountLine(fo), clock)
  {
  }

  lemma WithinUnset(fo: ForgetOpts, clock: DurationText)
    requires NoWithin(fo)
    ensures Unset(WithinLine(fo), clock)
  {
  }

  lemma UnsetTogether(a: seq<Part>, b: seq<Part>, c: seq<Part>, clock: DurationText)
    requires Unset(a, clock) && Unset(b, clock) && Unset(c, clock)
    ensures Unset(a + b + c, clock)
  {
    assert forall i :: 0 <= i < |a + b + c| ==> (a + b + c)[i] in a || (a + b + c)[i] in b || (a + b + c)[i] in c;
  }
}
