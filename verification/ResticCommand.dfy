/**
 restic.go: the command line `RunRestic` assembles, and a left-to-right reading of it that recovers the
 call. The reading succeeds exactly for the calls described by `Decodable`.
 */
module ResticCommand {
  import opened Wrappers
  import opened Text
  import opened Utils
  import opened Arguments
  import opened ResticOptions

  /** The calls of `RunRestic`, with their options and positional arguments. */
  datatype Invocation =
    | Backup(files: seq<string>, backupOpts: BackupOpts)
    | Restore(snapshot: string, restoreOpts: RestoreOpts)
    | Forget(forgetOpts: ForgetOpts)
    | Unlock(unlockOpts: UnlockOpts)
    | Snapshots(json: bool)
    | Check
    | Init

  /** `global` is absent when the job configures no `options` block. */
  datatype Call = Call(global: Option<ResticGlobalOpts>, repo: string, invocation: Invocation)

  /** What an absent block of global options stands for. */
  const NO_GLOBALS: ResticGlobalOpts :=
    ResticGlobalOpts("", "", "", "", 0, 0, 0, false, false, false, false, map[])

  function CommandName(inv: Invocation): string {
    match inv
    case Backup(_, _) => "backup"
    case Restore(_, _) => "restore"
    case Forget(_) => "forget"
    case Unlock(_) => "unlock"
    case Snapshots(_) => "snapshots"
    case Check => "check"
    case Init => "init"
  }

  function OptionTable(inv: Invocation): Table {
    match inv
    case Backup(_, _) => BACKUP_OPTIONS
    case Restore(_, _) => RESTORE_OPTIONS
    case Forget(_) => FORGET_OPTIONS
    case Unlock(_) => UNLOCK_OPTIONS
    case Snapshots(_) => SNAPSHOT_OPTIONS
    case Check => NO_OPTIONS
    case Init => NO_OPTIONS
  }

  function OptionRows(inv: Invocation, clock: DurationText): seq<seq<string>> {
    match inv
    case Backup(_, opts) => BackupRows(opts)
    case Restore(_, opts) => RestoreRows(opts)
    case Forget(opts) => ForgetRows(opts, clock)
    case Unlock(opts) => UnlockRows(opts)
    case Snapshots(json) => [BoolRow(json)]
    case Check => []
    case Init => []
  }

  function Positionals(inv: Invocation): seq<string> {
    match inv
    case Backup(files, _) => files
    case Restore(snapshot, _) => [snapshot]
    case _ => []
  }

  lemma RowsFit(inv: Invocation, clock: DurationText)
    ensures Fits(OptionTable(inv), OptionRows(inv, clock)) && Distinct(OptionTable(inv))
  {
    SmallTablesDistinct();
    ForgetTableDistinct();
    match inv
    case Backup(_, opts) =>
    case Restore(_, opts) =>
    case Forget(opts) => ForgetRowsFit(opts, clock);
    case Unlock(opts) =>
    case Snapshots(json) =>
    case Check =>
    case Init =>
  }

  lemma ForgetRowsFit(fo: ForgetOpts, clock: DurationText)
    ensures Fits(FORGET_OPTIONS, ForgetRows(fo, clock))
  {
  }

  function OptionsEncoded(inv: Invocation, clock: DurationText): seq<string> {
    RowsFit(inv, clock);
    Encoded(OptionTable(inv), OptionRows(inv, clock))
  }

  /** The command, its options and its positional arguments. */
  function CommandTokens(inv: Invocation, clock: DurationText): seq<string> {
    [CommandName(inv)] + (OptionsEncoded(inv, clock) + Positionals(inv))
  }

  /** The configured option map; its keys are visited in some order. */
  function OptionMap(global: Option<ResticGlobalOpts>): map<string, string> {
    if global.Some? then global.value.options else map[]
  }

  function GlobalEncoded(global: Option<ResticGlobalOpts>, order: seq<string>): seq<string>
    requires forall k :: k in order ==> k in OptionMap(global)
  {
    if global.Some? then
      assert OptionMap(global) == global.value.options;
      Encoded(GLOBAL_OPTIONS, GlobalRows(global.value, order))
    else []
  }

  /** What `RunRestic` passes to the restic binary; `order` is the order of the range over `Options`. */
  function Argv(call: Call, order: seq<string>, clock: DurationText): seq<string>
    requires forall k :: k in order ==> k in OptionMap(call.global)
  {
    GlobalEncoded(call.global, order) + (["--repo", call.repo] + CommandTokens(call.invocation, clock))
  }

  /** `options.ToArgs()` for the options each command is run with. */
  method OptionsToArgs(inv: Invocation, clock: DurationText) returns (options: seq<string>)
    ensures options == OptionsEncoded(inv, clock)
  {
    match inv {
      case Backup(_, opts) => options := BackupToArgs(opts);
      case Restore(_, opts) => options := RestoreToArgs(opts);
      case Forget(opts) => options := ForgetToArgs(opts, clock);
      case Unlock(opts) => options := UnlockToArgs(opts);
      case Snapshots(json) =>
        ghost var t, rows := SNAPSHOT_OPTIONS, [BoolRow(json)];
        options := AddBool([], "--json", json, t, rows, 0);
      case Check => options := [];
      case Init => options := [];
    }
  }

  lemma Regroup(globals: seq<string>, flag: string, repo: string, name: string, options: seq<string>, rest: seq<string>)
    ensures globals + [flag, repo, name] + options + rest == globals + ([flag, repo] + ([name] + (options + rest)))
  {
  }

  /** The argument assembly of `RunRestic`. */
  method BuildArgv(call: Call, clock: DurationText) returns (args: seq<string>)
    ensures exists order :: Enumerates(order, OptionMap(call.global).Keys) && args == Argv(call, order, clock)
  {
    args := [];
    ghost var order: seq<string> := [];
    if call.global.Some? {
      args := GlobalToArgs(call.global.value);
      order :| Enumerates(order, call.global.value.options.Keys) &&
        args == Encoded(GLOBAL_OPTIONS, GlobalRows(call.global.value, order));
    }
    var options := OptionsToArgs(call.invocation, clock);
    ghost var globals := args;
    args := args + ["--repo", call.repo, CommandName(call.invocation)];
    args := args + options;
    args := args + Positionals(call.invocation);
    Regroup(globals, "--repo", call.repo, CommandName(call.invocation), options, Positionals(call.invocation));
    assert args == Argv(call, order, clock);
  }

  // ----- Reading a command line --------------------------------------------------------------------

  function TableFor(command: string): Option<Table> {
    if command == "backup" then Some(BACKUP_OPTIONS)
    else if command == "restore" then Some(RESTORE_OPTIONS)
    else if command == "forget" then Some(FORGET_OPTIONS)
    else if command == "unlock" then Some(UNLOCK_OPTIONS)
    else if command == "snapshots" then Some(SNAPSHOT_OPTIONS)
    else if command == "check" || command == "init" then Some(NO_OPTIONS)
    else None
  }

  function ReadInvocation(command: string, items: seq<Item>, rest: seq<string>, clock: DurationText): Option<Invocation>
    requires TableFor(command).Some?
  {
    var rows := Rows(TableFor(command).value, items);
    if command == "backup" then Some(Backup(rest, ReadBackup(rows)))
    else if command == "restore" then
      if |rest| == 1 then Some(Restore(rest[0], ReadRestore(rows))) else None
    else if rest != [] then None
    else if command == "forget" then Some(Forget(ReadForget(rows, clock)))
    else if command == "unlock" then Some(Unlock(ReadUnlock(rows)))
    else if command == "snapshots" then Some(Snapshots(ReadBool(rows[0])))
    else if command == "check" then Some(Check)
    else Some(Init)
  }

  /** The part after `--repo R`: the command's name, its options, its positional arguments. */
  function DecodeCommand(tokens: seq<string>, clock: DurationText): Option<Invocation> {
    if tokens == [] || TableFor(tokens[0]).None? then None
    else
      match Scan(TableFor(tokens[0]).value, tokens[1..])
      case None => None
      case Some(scanned) => ReadInvocation(tokens[0], scanned.items, scanned.rest, clock)
  }

  /** Reads a whole command line from left to right. */
  function Decode(argv: seq<string>, clock: DurationText): Option<Call> {
    match Scan(GLOBAL_OPTIONS, argv)
    case None => None
    case Some(scanned) =>
      if |scanned.rest| < 2 || scanned.rest[0] != "--repo" then None
      else
        match (ReadGlobal(Rows(GLOBAL_OPTIONS, scanned.items)), DecodeCommand(scanned.rest[2..], clock))
        case (Some(global), Some(inv)) => Some(Call(Some(global), scanned.rest[1], inv))
        case _ => None
  }

  /**
   A call up to what the encoders do not distinguish: non-positive numbers count as absent, and an
   absent block of global options as one with nothing set.
   */
  function Normal(call: Call): Call {
    call.(global := Some(NormalGlobals(call.global)), invocation := NormalInvocation(call.invocation))
  }

  function NormalGlobals(global: Option<ResticGlobalOpts>): ResticGlobalOpts {
    if global.Some? then NormalGlobal(global.value) else NO_GLOBALS
  }

  function NormalInvocation(inv: Invocation): Invocation {
    if inv.Forget? then Forget(NormalForget(inv.forgetOpts)) else inv
  }

  /**
   When a call can be read back: no option key holds a `=`, tag lists are plain, and the first
   positional argument is not the name of an option of the command.
   */
  ghost predicate Decodable(call: Call) {
    PlainKeys(OptionMap(call.global)) && DecodableInvocation(call.invocation)
  }

  ghost predicate DecodableInvocation(inv: Invocation) {
    && (inv.Forget? ==> PlainTags(inv.forgetOpts.tags) && PlainTags(inv.forgetOpts.keepTags))
    && (Positionals(inv) == [] || Find(OptionTable(inv), Positionals(inv)[0]).None?)
  }

  lemma TableForCommand(inv: Invocation)
    ensures TableFor(CommandName(inv)) == Some(OptionTable(inv))
  {
  }

  lemma ReadSmallRows(inv: Invocation, items: seq<Item>, clock: DurationText)
    requires !inv.Forget? && Rows(OptionTable(inv), items) == OptionRows(inv, clock)
    ensures TableFor(CommandName(inv)).Some?
    ensures ReadInvocation(CommandName(inv), items, Positionals(inv), clock) == Some(inv)
  {
    TableForCommand(inv);
  }

  lemma ReadForgetRows(opts: ForgetOpts, items: seq<Item>, clock: DurationText)
    requires Rows(FORGET_OPTIONS, items) == ForgetRows(opts, clock)
    ensures TableFor("forget").Some?
    ensures ReadInvocation("forget", items, [], clock) == Some(Forget(ReadForget(ForgetRows(opts, clock), clock)))
  {
    TableForCommand(Forget(opts));
  }

  /** With all options scanned, the record read back is the normal form exactly for plain tags. */
  lemma ReadRows(inv: Invocation, items: seq<Item>, clock: DurationText)
    requires Faithful(clock) && Rows(OptionTable(inv), items) == OptionRows(inv, clock)
    ensures TableFor(CommandName(inv)).Some?
    ensures ReadInvocation(CommandName(inv), items, Positionals(inv), clock) == Some(NormalInvocation(inv)) <==>
            (inv.Forget? ==> PlainTags(inv.forgetOpts.tags) && PlainTags(inv.forgetOpts.keepTags))
  {
    if inv.Forget? {
      ReadForgetRows(inv.forgetOpts, items, clock);
      ForgetRowsRead(inv.forgetOpts, clock);
    } else {
      ReadSmallRows(inv, items, clock);
    }
  }

  /** A reading that took a positional argument for an option has fewer positional arguments left. */
  lemma ReadFewer(inv: Invocation, items: seq<Item>, rest: seq<string>, clock: DurationText)
    requires TableFor(CommandName(inv)).Some? && |rest| < |Positionals(inv)|
    ensures ReadInvocation(CommandName(inv), items, rest, clock) != Some(NormalInvocation(inv))
  {
  }

  /** Where the scan of a command's own options ends. */
  lemma ScanCommand(inv: Invocation, clock: DurationText)
    ensures var scanned, rest := Scan(OptionTable(inv), OptionsEncoded(inv, clock) + Positionals(inv)), Positionals(inv);
            && (rest == [] || Find(OptionTable(inv), rest[0]).None? ==>
                  scanned == Some(Scanned(Items(OptionRows(inv, clock)), rest)))
            && (rest != [] && Find(OptionTable(inv), rest[0]).Some? ==>
                  scanned.None? || |scanned.value.rest| < |rest|)
    ensures Rows(OptionTable(inv), Items(OptionRows(inv, clock))) == OptionRows(inv, clock)
  {
    var table, rows, rest := OptionTable(inv), OptionRows(inv, clock), Positionals(inv);
    RowsFit(inv, clock);
    ScanEncoded(table, rows, rest);
    ScanStops(table, rest);
    assert Items(rows) + [] == Items(rows);
  }

  lemma DecodeCommandExact(inv: Invocation, clock: DurationText)
    requires Faithful(clock)
    ensures (DecodeCommand(CommandTokens(inv, clock), clock) == Some(NormalInvocation(inv))) <==> DecodableInvocation(inv)
  {
    var rest, tokens := Positionals(inv), CommandTokens(inv, clock);
    TableForCommand(inv);
    ScanCommand(inv, clock);
    assert tokens[1..] == OptionsEncoded(inv, clock) + rest;
    var scanned := Scan(OptionTable(inv), tokens[1..]);
    if rest == [] || Find(OptionTable(inv), rest[0]).None? {
      ReadRows(inv, Items(OptionRows(inv, clock)), clock);
    } else if scanned.Some? {
      ReadFewer(inv, scanned.value.items, scanned.value.rest, clock);
    }
  }

  lemma ScanGlobalOptions(glo: ResticGlobalOpts, order: seq<string>, rest: seq<string>, clock: DurationText)
    requires Enumerates(order, glo.options.Keys)
    requires Scan(GLOBAL_OPTIONS, rest) == Some(Scanned([], rest))
    ensures var scanned := Scan(GLOBAL_OPTIONS, Encoded(GLOBAL_OPTIONS, GlobalRows(glo, order)) + rest);
            && scanned.Some? && scanned.value.rest == rest
            && Rows(GLOBAL_OPTIONS, scanned.value.items) == GlobalRows(glo, order)
  {
    var rows := GlobalRows(glo, order);
    GlobalTableDistinct();
    GlobalRowsFit(glo, order);
    ScanEncoded(GLOBAL_OPTIONS, rows, rest);
    assert Items(rows) + [] == Items(rows);
  }

  lemma NoGlobalsRead()
    ensures ReadGlobal(Rows(GLOBAL_OPTIONS, [])) == Some(NO_GLOBALS)
  {
    assert Pairs([]) == [] && Quoted([]);
    assert forall i :: 0 <= i < |GLOBAL_OPTIONS| ==> Rows(GLOBAL_OPTIONS, [])[i] == Collect([], i) == [];
  }

  /** The global options end at `--repo`, and what was scanned before it reads back exactly. */
  lemma ScanGlobals(global: Option<ResticGlobalOpts>, order: seq<string>, rest: seq<string>, clock: DurationText)
    requires Enumerates(order, OptionMap(global).Keys)
    requires rest != [] && rest[0] == "--repo"
    ensures var scanned := Scan(GLOBAL_OPTIONS, GlobalEncoded(global, order) + rest);
            && scanned.Some? && scanned.value.rest == rest
            && (ReadGlobal(Rows(GLOBAL_OPTIONS, scanned.value.items)) == Some(NormalGlobals(global))
                <==> PlainKeys(OptionMap(global)))
  {
    GlobalTableDistinct();
    ScanStops(GLOBAL_OPTIONS, rest);
    if global.Some? {
      ScanGlobalOptions(global.value, order, rest, clock);
      GlobalRowsRead(global.value, order, clock);
    } else {
      assert [] + rest == rest;
      NoGlobalsRead();
    }
  }

  /**
   The command line is uniquely decodable: whatever order the range over `Options` took, reading it
   back gives the call in normal form -- exactly for decodable calls.
   */
  lemma DecodeExact(call: Call, order: seq<string>, clock: DurationText)
    requires Faithful(clock) && Enumerates(order, OptionMap(call.global).Keys)
    ensures (Decode(Argv(call, order, clock), clock) == Some(Normal(call))) <==> Decodable(call)
  {
    var command := CommandTokens(call.invocation, clock);
    DecodeCommandExact(call.invocation, clock);
    ScanGlobals(call.global, order, ["--repo", call.repo] + command, clock);
    AfterRepo(call.repo, command);
  }

  lemma AfterRepo(repo: string, command: seq<string>)
    ensures var rest := ["--repo", repo] + command; |rest| >= 2 && rest[0] == "--repo" && rest[1] == repo && rest[2..] == command
  {
  }

  /** Where nothing needs normalising, exactly the call itself comes back. */
  lemma DecodeItself(call: Call, order: seq<string>, clock: DurationText)
    requires Faithful(clock) && Enumerates(order, OptionMap(call.global).Keys)
    requires call.global.Some?
    requires var g := call.global.value; g.limitDownload >= 0 && g.limitUpload >= 0 && g.verboseLevel >= 0
    requires call.invocation.Forget? ==> NothingNegative(call.invocation.forgetOpts)
    ensures Decode(Argv(call, order, clock), clock) == Some(call) <==> Decodable(call)
  {
    DecodeExact(call, order, clock);
    assert Normal(call) == call;
  }

  predicate NothingNegative(fo: ForgetOpts) {
    && fo.keepLast >= 0 && fo.keepHourly >= 0 && fo.keepDaily >= 0
    && fo.keepWeekly >= 0 && fo.keepMonthly >= 0 && fo.keepYearly >= 0
    && fo.keepWithin >= 0 && fo.keepWithinHourly >= 0 && fo.keepWithinDaily >= 0
    && fo.keepWithinWeekly >= 0 && fo.keepWithinMonthly >= 0 && fo.keepWithinYearly >= 0
  }

  /** So two decodable calls with the same command line are the same call, up to normal form. */
  lemma SameArgvSameCall(c0: Call, o0: seq<string>, c1: Call, o1: seq<string>, clock: DurationText)
    requires Faithful(clock) && Decodable(c0) && Decodable(c1)
    requires Enumerates(o0, OptionMap(c0.global).Keys) && Enumerates(o1, OptionMap(c1.global).Keys)
    requires Argv(c0, o0, clock) == Argv(c1, o1, clock)
    ensures Normal(c0) == Normal(c1)
  {
    DecodeExact(c0, o0, clock);
    DecodeExact(c1, o1, clock);
  }

  lemma HostTokens(files: seq<string>, host: string, clock: DurationText)
    ensures CommandTokens(Backup(files, BackupOpts([], [], [], host)), clock) ==
            ["backup"] + ((if host == "" then [] else ["--host", host]) + files)
  {
    var t, rows := BACKUP_OPTIONS, BackupRows(BackupOpts([], [], [], host));
    assert Laid(t, rows, 1) == [];
    assert Laid(t, rows, 2) == [];
    assert Laid(t, rows, 3) == [];
    SingleOption([], "--host", host, 0, false);
    assert Laid(t, rows, 4) == if host == "" then [] else ["--host", host];
  }

  /** Without the condition on positionals two different backups can look the same to restic. */
  lemma PositionalCollision(global: Option<ResticGlobalOpts>, order: seq<string>, repo: string, clock: DurationText)
    requires Enumerates(order, OptionMap(global).Keys)
    ensures var c0 := Call(global, repo, Backup([], BackupOpts([], [], [], "h")));
            var c1 := Call(global, repo, Backup(["--host", "h"], BackupOpts([], [], [], "")));
            Argv(c0, order, clock) == Argv(c1, order, clock) && Normal(c0) != Normal(c1)
  {
    HostTokens([], "h", clock);
    HostTokens(["--host", "h"], "", clock);
    assert ["--host", "h"] + [] == [] + ["--host", "h"];
  }
}
