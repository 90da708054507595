/**
 restic.go: the option records, their command-line form (`ToArgs`) and the way back. Every record is laid
 out as one row of values per option, in the order its encoder visits them.
 */
module ResticOptions {
  import opened Wrappers
  import opened Text
  import opened Utils
  import opened Arguments

  datatype UnlockOpts = UnlockOpts(removeAll: bool)

  datatype BackupOpts = BackupOpts(exclude: seq<string>, includes: seq<string>, tags: seq<string>, host: string)

  datatype RestoreOpts = RestoreOpts(
    exclude: seq<string>, includes: seq<string>, host: seq<string>, tags: seq<string>,
    path: string, target: string, verifies: bool)

  type TagList = seq<string>

  /** Durations count nanoseconds. */
  datatype ForgetOpts = ForgetOpts(
    keepLast: int, keepHourly: int, keepDaily: int, keepWeekly: int, keepMonthly: int, keepYearly: int,
    keepWithin: int, keepWithinHourly: int, keepWithinDaily: int,
    keepWithinWeekly: int, keepWithinMonthly: int, keepWithinYearly: int,
    tags: seq<TagList>, keepTags: seq<TagList>, prune: bool)

  datatype ResticGlobalOpts = ResticGlobalOpts(
    caCertFile: string, cacheDir: string, passwordFile: string, tlsClientCertFile: string,
    limitDownload: int, limitUpload: int, verboseLevel: int,
    cleanupCache: bool, insecureTls: bool, noCache: bool, noLock: bool,
    options: map<string, string>)

  /** `time.Duration.String` and a reader for it; only positive durations are ever printed. */
  datatype DurationText = DurationText(print_: int -> string, parse: string -> int)

  ghost predicate Faithful(clock: DurationText) {
    forall d :: d > 0 ==> clock.parse(clock.print_(d)) == d
  }

  // ----- Rows of values and their readers ----------------------------------------------------------

  function StringRow(value: string): seq<string> { if value != "" then [value] else [] }

  function IntRow(value: int): seq<string> { if value > 0 then [Decimal(value)] else [] }

  function BoolRow(value: bool): seq<string> { if value then [""] else [] }

  function DurationRow(clock: DurationText, d: int): seq<string> { if d > 0 then [clock.print_(d)] else [] }

  /** `TagList.String` of every list. */
  function TagRow(lists: seq<TagList>): (row: seq<string>)
    ensures |row| == |lists|
    ensures forall i :: 0 <= i < |lists| ==> row[i] == Join(lists[i], ",")
  {
    seq(|lists|, i requires 0 <= i < |lists| => Join(lists[i], ","))
  }

  /** One entry of the options map, as `key='value'`. */
  function OptionText(key: string, value: string): string { key + "='" + value + "'" }

  /** The texts of a map in the order its range visits the keys. */
  function OptionRow(order: seq<string>, options: map<string, string>): (row: seq<string>)
    requires forall k :: k in order ==> k in options
    ensures |row| == |order|
    ensures forall i :: 0 <= i < |order| ==> row[i] == OptionText(order[i], options[order[i]])
  {
    seq(|order|, i requires 0 <= i < |order| => OptionText(order[i], options[order[i]]))
  }

  function ReadString(row: seq<string>): string { if row == [] then "" else row[0] }

  function ReadInt(row: seq<string>): int { if row == [] then 0 else ParseDecimal(row[0]) }

  function ReadBool(row: seq<string>): bool { row != [] }

  function ReadDuration(clock: DurationText, row: seq<string>): int { if row == [] then 0 else clock.parse(row[0]) }

  function ReadTagList(text: string): TagList { if text == "" then [] else Split(text, ',') }

  function ReadTags(row: seq<string>): (lists: seq<TagList>)
    ensures |lists| == |row|
    ensures forall i :: 0 <= i < |row| ==> lists[i] == ReadTagList(row[i])
  {
    seq(|row|, i requires 0 <= i < |row| => ReadTagList(row[i]))
  }

  /** `key='value'` taken apart at the first `=`; nothing if the value does not stand in quotes. */
  function ReadOption(text: string): Option<(string, string)> {
    var i := IndexOf(text, '=');
    if i + 2 < |text| && text[i + 1] == '\'' && text[|text| - 1] == '\''
    then Some((text[..i], text[i + 2..|text| - 1]))
    else None
  }

  predicate Quoted(row: seq<string>) { forall i :: 0 <= i < |row| ==> ReadOption(row[i]).Some? }

  function Pairs(row: seq<string>): (kvs: seq<(string, string)>)
    requires Quoted(row)
    ensures |kvs| == |row| && forall i :: 0 <= i < |row| ==> kvs[i] == ReadOption(row[i]).value
  {
    seq(|row|, i requires 0 <= i < |row| => ReadOption(row[i]).value)
  }

  /** A map filled pair by pair. */
  function FromPairs(kvs: seq<(string, string)>): map<string, string> {
    if kvs == [] then map[]
    else FromPairs(kvs[..|kvs| - 1])[kvs[|kvs| - 1].0 := kvs[|kvs| - 1].1]
  }

  function ReadOptions(row: seq<string>): Option<map<string, string>> {
    if Quoted(row) then Some(FromPairs(Pairs(row))) else None
  }

  /** What a non-positive number is worth on the command line: nothing. */
  function Positive(n: int): int { if n > 0 then n else 0 }

  lemma ReadNumbers(n: int, clock: DurationText)
    ensures ReadInt(IntRow(n)) == Positive(n)
    ensures Faithful(clock) ==> ReadDuration(clock, DurationRow(clock, n)) == Positive(n)
  {
    if n > 0 {
      ParseDecimalRoundTrip(n);
    }
  }

  /** Tag lists survive printing: no comma inside a tag, and not the list of one empty tag. */
  ghost predicate PlainTags(lists: seq<TagList>) {
    forall l :: l in lists ==> PlainTagList(l)
  }

  ghost predicate PlainTagList(l: TagList) {
    l != [""] && forall t :: t in l ==> ',' !in t
  }

  lemma ReadTagListExact(l: TagList)
    ensures ReadTagList(Join(l, ",")) == l <==> PlainTagList(l)
  {
    SplitJoinExact(l, ',');
    assert |l| > 1 ==> |Join(l, ",")| > 0;
    assert |l| == 1 && l[0] == "" ==> l == [""];
  }

  lemma ReadTagsExact(lists: seq<TagList>)
    ensures ReadTags(TagRow(lists)) == lists <==> PlainTags(lists)
  {
    var read := ReadTags(TagRow(lists));
    forall i | 0 <= i < |lists| ensures read[i] == lists[i] <==> PlainTagList(lists[i]) {
      ReadTagListExact(lists[i]);
    }
    if PlainTags(lists) {
      assert forall i :: 0 <= i < |lists| ==> lists[i] in lists;
    } else {
      var l :| l in lists && !PlainTagList(l);
      var i :| 0 <= i < |lists| && lists[i] == l;
      assert read[i] != lists[i];
    }
  }

  ghost predicate PlainKeys(options: map<string, string>) {
    forall k :: k in options ==> '=' !in k
  }

  lemma ReadOptionParts(key: string, value: string)
    ensures '=' !in key ==> ReadOption(OptionText(key, value)) == Some((key, value))
  {
    var text := OptionText(key, value);
    if '=' !in key {
      IndexAfterPrefix(key, '=', "'" + value + "'");
      assert text == key + ['='] + ("'" + value + "'");
      assert text[..|key|] == key && text[|key| + 2..|text| - 1] == value;
    }
  }

  lemma {:induction false} PlainPairs(kvs: seq<(string, string)>)
    requires forall i :: 0 <= i < |kvs| ==> '=' !in kvs[i].0
    ensures forall k :: k in FromPairs(kvs) ==> '=' !in k
    decreases |kvs|
  {
    if kvs != [] {
      PlainPairs(kvs[..|kvs| - 1]);
    }
  }

  /** Whatever was written, the keys read back are plain. */
  lemma ReadKeysPlain(row: seq<string>)
    requires Quoted(row)
    ensures forall k :: k in FromPairs(Pairs(row)) ==> '=' !in k
  {
    PlainPairs(Pairs(row));
  }

  /** The entries of a map under the keys in `order`. */
  function KeyValues(order: seq<string>, options: map<string, string>): (kvs: seq<(string, string)>)
    requires forall k :: k in order ==> k in options
    ensures |kvs| == |order| && forall i :: 0 <= i < |order| ==> kvs[i] == (order[i], options[order[i]])
  {
    seq(|order|, i requires 0 <= i < |order| => (order[i], options[order[i]]))
  }

  function Restricted(order: seq<string>, options: map<string, string>): map<string, string>
    requires forall k :: k in order ==> k in options
  {
    map k | k in order :: options[k]
  }

  lemma {:induction false} FromKeyValues(order: seq<string>, options: map<string, string>)
    requires forall k :: k in order ==> k in options
    ensures FromPairs(KeyValues(order, options)) == Restricted(order, options)
    decreases |order|
  {
    if order != [] {
      var before, last := order[..|order| - 1], order[|order| - 1];
      assert last in order;
      FromKeyValues(before, options);
      assert KeyValues(order, options)[..|order| - 1] == KeyValues(before, options);
      assert order == before + [last];
      assert Restricted(order, options) == Restricted(before, options)[last := options[last]];
    }
  }

  lemma PlainRow(order: seq<string>, options: map<string, string>)
    requires PlainKeys(options) && forall k :: k in order ==> k in options
    ensures Quoted(OptionRow(order, options)) && Pairs(OptionRow(order, options)) == KeyValues(order, options)
  {
    forall i | 0 <= i < |order| ensures ReadOption(OptionRow(order, options)[i]) == Some(KeyValues(order, options)[i]) {
      assert order[i] in order;
      ReadOptionParts(order[i], options[order[i]]);
    }
  }

  /** The options map comes back whatever order its range took, exactly when no key holds a `=`. */
  lemma ReadOptionsExact(order: seq<string>, options: map<string, string>)
    requires Enumerates(order, options.Keys)
    ensures ReadOptions(OptionRow(order, options)) == Some(options) <==> PlainKeys(options)
  {
    var row := OptionRow(order, options);
    if PlainKeys(options) {
      PlainRow(order, options);
      FromKeyValues(order, options);
      assert Restricted(order, options) == options;
    } else if Quoted(row) {
      ReadKeysPlain(row);
      var k :| k in options && '=' in k;
      assert k !in FromPairs(Pairs(row));
    }
  }

  // ----- Tables ------------------------------------------------------------------------------------

  const NO_OPTIONS: Table := []

  const UNLOCK_OPTIONS: Table := [OptionSpec("--remove-all", false)]

  const SNAPSHOT_OPTIONS: Table := [OptionSpec("--json", false)]

  const BACKUP_OPTIONS: Table := [
    OptionSpec("--exclude", true), OptionSpec("--include", true),
    OptionSpec("--tag", true), OptionSpec("--host", true)]

  const RESTORE_OPTIONS: Table := [
    OptionSpec("--exclude", true), OptionSpec("--include", true), OptionSpec("--host", true),
    OptionSpec("--tag", true), OptionSpec("--path", true), OptionSpec("--target", true),
    OptionSpec("--verify", false)]

  const FORGET_OPTIONS: Table := [
    OptionSpec("--keep-last", true), OptionSpec("--keep-hourly", true), OptionSpec("--keep-daily", true),
    OptionSpec("--keep-weekly", true), OptionSpec("--keep-monthly", true), OptionSpec("--keep-yearly", true),
    OptionSpec("--keep-within", true), OptionSpec("--keep-within-hourly", true),
    OptionSpec("--keep-within-daily", true), OptionSpec("--keep-within-weekly", true),
    OptionSpec("--keep-within-monthly", true), OptionSpec("--keep-within-yearly", true),
    OptionSpec("--tag", true), OptionSpec("--keep-tag", true), OptionSpec("--prune", false)]

  const GLOBAL_OPTIONS: Table := [
    OptionSpec("--cacert", true), OptionSpec("--cache-dir", true), OptionSpec("--password-file", true),
    OptionSpec("--tls-client-cert", true), OptionSpec("--limit-download", true),
    OptionSpec("--limit-upload", true), OptionSpec("--verbose", true), OptionSpec("--cleanup-cache", false),
    OptionSpec("--insecure-tls", false), OptionSpec("--no-cache", false), OptionSpec("--no-lock", false),
    OptionSpec("--option", true)]

  lemma SmallTablesDistinct()
    ensures Distinct(NO_OPTIONS) && Distinct(UNLOCK_OPTIONS) && Distinct(SNAPSHOT_OPTIONS)
    ensures Distinct(BACKUP_OPTIONS) && Distinct(RESTORE_OPTIONS)
  {
    assert "--tag"[2] != "--host"[2];
  }

  lemma ForgetTableDistinct()
    ensures Distinct(FORGET_OPTIONS)
  {
  }

  lemma GlobalTableDistinct()
    ensures Distinct(GLOBAL_OPTIONS)
    ensures Find(GLOBAL_OPTIONS, "--repo").None?
  {
    GlobalTableMarks();
    MarksDistinct();
    DistinctByMarks(GLOBAL_OPTIONS, GLOBAL_MARKS);
    assert |"--repo"| == 6;
  }

  /** Length and third character tell the global options apart. */
  const GLOBAL_MARKS: seq<(nat, char)> := [
    (8, 'c'), (11, 'c'), (15, 'p'), (17, 't'), (16, 'l'), (14, 'l'),
    (9, 'v'), (15, 'c'), (14, 'i'), (10, 'n'), (9, 'n'), (8, 'o')]

  ghost predicate Marked(t: Table, marks: seq<(nat, char)>) {
    && |t| == |marks|
    && forall i :: 0 <= i < |t| ==> |t[i].name| > 6 && (|t[i].name|, t[i].name[2]) == marks[i]
  }

  lemma GlobalTableMarks()
    ensures Marked(GLOBAL_OPTIONS, GLOBAL_MARKS)
  {
  }

  lemma MarksDistinct()
    ensures forall i, j :: 0 <= i < j < |GLOBAL_MARKS| ==> GLOBAL_MARKS[i] != GLOBAL_MARKS[j]
  {
  }

  lemma DistinctByMarks(t: Table, marks: seq<(nat, char)>)
    requires Marked(t, marks) && forall i, j :: 0 <= i < j < |marks| ==> marks[i] != marks[j]
    ensures Distinct(t)
    ensures forall token :: |token| <= 6 ==> Find(t, token).None?
  {
    forall i, j | 0 <= i < j < |t| ensures t[i].name != t[j].name {
      assert marks[i] != marks[j];
    }
  }

  // ----- Records as rows, and back -----------------------------------------------------------------

  function UnlockRows(uo: UnlockOpts): seq<seq<string>> { [BoolRow(uo.removeAll)] }

  function ReadUnlock(rows: seq<seq<string>>): UnlockOpts
    requires |rows| == 1
  {
    UnlockOpts(ReadBool(rows[0]))
  }

  function BackupRows(bo: BackupOpts): seq<seq<string>> {
    [bo.exclude, bo.includes, bo.tags, StringRow(bo.host)]
  }

  function ReadBackup(rows: seq<seq<string>>): BackupOpts
    requires |rows| == 4
  {
    BackupOpts(rows[0], rows[1], rows[2], ReadString(rows[3]))
  }

  function RestoreRows(ro: RestoreOpts): seq<seq<string>> {
    [ro.exclude, ro.includes, ro.host, ro.tags, StringRow(ro.path), StringRow(ro.target), BoolRow(ro.verifies)]
  }

  function ReadRestore(rows: seq<seq<string>>): RestoreOpts
    requires |rows| == 7
  {
    RestoreOpts(rows[0], rows[1], rows[2], rows[3], ReadString(rows[4]), ReadString(rows[5]), ReadBool(rows[6]))
  }

  function ForgetRows(fo: ForgetOpts, clock: DurationText): seq<seq<string>> {
    [IntRow(fo.keepLast), IntRow(fo.keepHourly), IntRow(fo.keepDaily),
     IntRow(fo.keepWeekly), IntRow(fo.keepMonthly), IntRow(fo.keepYearly),
     DurationRow(clock, fo.keepWithin), DurationRow(clock, fo.keepWithinHourly),
     DurationRow(clock, fo.keepWithinDaily), DurationRow(clock, fo.keepWithinWeekly),
     DurationRow(clock, fo.keepWithinMonthly), DurationRow(clock, fo.keepWithinYearly),
     TagRow(fo.tags), TagRow(fo.keepTags), BoolRow(fo.prune)]
  }

  function ReadForget(rows: seq<seq<string>>, clock: DurationText): ForgetOpts
    requires |rows| == 15
  {
    ForgetOpts(
      ReadInt(rows[0]), ReadInt(rows[1]), ReadInt(rows[2]), ReadInt(rows[3]), ReadInt(rows[4]), ReadInt(rows[5]),
      ReadDuration(clock, rows[6]), ReadDuration(clock, rows[7]), ReadDuration(clock, rows[8]),
      ReadDuration(clock, rows[9]), ReadDuration(clock, rows[10]), ReadDuration(clock, rows[11]),
      ReadTags(rows[12]), ReadTags(rows[13]), ReadBool(rows[14]))
  }

  function GlobalRows(glo: ResticGlobalOpts, order: seq<string>): seq<seq<string>>
    requires forall k :: k in order ==> k in glo.options
  {
    [StringRow(glo.caCertFile), StringRow(glo.cacheDir), StringRow(glo.passwordFile),
     StringRow(glo.tlsClientCertFile), IntRow(glo.limitDownload), IntRow(glo.limitUpload),
     IntRow(glo.verboseLevel), BoolRow(glo.cleanupCache), BoolRow(glo.insecureTls),
     BoolRow(glo.noCache), BoolRow(glo.noLock), OptionRow(order, glo.options)]
  }

  /** The record read from the rows of the fixed options, with this map. */
  function GlobalFrom(rows: seq<seq<string>>, options: map<string, string>): ResticGlobalOpts
    requires |rows| == 12
  {
    ResticGlobalOpts(
      ReadString(rows[0]), ReadString(rows[1]), ReadString(rows[2]), ReadString(rows[3]),
      ReadInt(rows[4]), ReadInt(rows[5]), ReadInt(rows[6]),
      ReadBool(rows[7]), ReadBool(rows[8]), ReadBool(rows[9]), ReadBool(rows[10]), options)
  }

  function ReadGlobal(rows: seq<seq<string>>): Option<ResticGlobalOpts>
    requires |rows| == 12
  {
    match ReadOptions(rows[11])
    case None => None
    case Some(options) => Some(GlobalFrom(rows, options))
  }

  /** The record with every non-positive number replaced by zero, which the command line cannot tell apart. */
  function NormalForget(fo: ForgetOpts): ForgetOpts {
    ForgetOpts(
      Positive(fo.keepLast), Positive(fo.keepHourly), Positive(fo.keepDaily),
      Positive(fo.keepWeekly), Positive(fo.keepMonthly), Positive(fo.keepYearly),
      Positive(fo.keepWithin), Positive(fo.keepWithinHourly), Positive(fo.keepWithinDaily),
      Positive(fo.keepWithinWeekly), Positive(fo.keepWithinMonthly), Positive(fo.keepWithinYearly),
      fo.tags, fo.keepTags, fo.prune)
  }

  function NormalGlobal(glo: ResticGlobalOpts): ResticGlobalOpts {
    glo.(limitDownload := Positive(glo.limitDownload), limitUpload := Positive(glo.limitUpload),
         verboseLevel := Positive(glo.verboseLevel))
  }

  lemma ForgetCountsRead(fo: ForgetOpts, clock: DurationText)
    ensures var r := ReadForget(ForgetRows(fo, clock), clock);
            && r.keepLast == Positive(fo.keepLast) && r.keepHourly == Positive(fo.keepHourly)
            && r.keepDaily == Positive(fo.keepDaily) && r.keepWeekly == Positive(fo.keepWeekly)
            && r.keepMonthly == Positive(fo.keepMonthly) && r.keepYearly == Positive(fo.keepYearly)
  {
    ReadNumbers(fo.keepLast, clock);
    ReadNumbers(fo.keepHourly, clock);
    ReadNumbers(fo.keepDaily, clock);
    ReadNumbers(fo.keepWeekly, clock);
    ReadNumbers(fo.keepMonthly, clock);
    ReadNumbers(fo.keepYearly, clock);
  }

  lemma ForgetWithinRead(fo: ForgetOpts, clock: DurationText)
    requires Faithful(clock)
    ensures var r := ReadForget(ForgetRows(fo, clock), clock);
            && r.keepWithin == Positive(fo.keepWithin) && r.keepWithinHourly == Positive(fo.keepWithinHourly)
            && r.keepWithinDaily == Positive(fo.keepWithinDaily) && r.keepWithinWeekly == Positive(fo.keepWithinWeekly)
            && r.keepWithinMonthly == Positive(fo.keepWithinMonthly) && r.keepWithinYearly == Positive(fo.keepWithinYearly)
  {
    ReadNumbers(fo.keepWithin, clock);
    ReadNumbers(fo.keepWithinHourly, clock);
    ReadNumbers(fo.keepWithinDaily, clock);
    ReadNumbers(fo.keepWithinWeekly, clock);
    ReadNumbers(fo.keepWithinMonthly, clock);
    ReadNumbers(fo.keepWithinYearly, clock);
  }

  lemma ForgetTagsRead(fo: ForgetOpts, clock: DurationText)
    ensures var r := ReadForget(ForgetRows(fo, clock), clock);
            && (r.tags == fo.tags <==> PlainTags(fo.tags)) && (r.keepTags == fo.keepTags <==> PlainTags(fo.keepTags))
            && r.prune == fo.prune
  {
    ReadTagsExact(fo.tags);
    ReadTagsExact(fo.keepTags);
  }

  lemma ForgetRowsRead(fo: ForgetOpts, clock: DurationText)
    requires Faithful(clock)
    ensures ReadForget(ForgetRows(fo, clock), clock) == NormalForget(fo) <==>
            PlainTags(fo.tags) && PlainTags(fo.keepTags)
  {
    ForgetCountsRead(fo, clock);
    ForgetWithinRead(fo, clock);
    ForgetTagsRead(fo, clock);
    SameForget(ReadForget(ForgetRows(fo, clock), clock), NormalForget(fo));
  }

  /** Two forget records that agree on counts, durations and pruning are equal exactly if their tags are. */
  lemma SameForget(a: ForgetOpts, b: ForgetOpts)
    requires a.(tags := b.tags, keepTags := b.keepTags) == b
    ensures a == b <==> a.tags == b.tags && a.keepTags == b.keepTags
  {
  }

  lemma GlobalValuesRead(glo: ResticGlobalOpts, order: seq<string>, options: map<string, string>, clock: DurationText)
    requires forall k :: k in order ==> k in glo.options
    ensures var r := GlobalFrom(GlobalRows(glo, order), options);
            && r.caCertFile == glo.caCertFile && r.cacheDir == glo.cacheDir
            && r.passwordFile == glo.passwordFile && r.tlsClientCertFile == glo.tlsClientCertFile
            && r.limitDownload == Positive(glo.limitDownload) && r.limitUpload == Positive(glo.limitUpload)
            && r.verboseLevel == Positive(glo.verboseLevel)
  {
    ReadNumbers(glo.limitDownload, clock);
    ReadNumbers(glo.limitUpload, clock);
    ReadNumbers(glo.verboseLevel, clock);
  }

  lemma GlobalFlagsRead(glo: ResticGlobalOpts, order: seq<string>, options: map<string, string>)
    requires forall k :: k in order ==> k in glo.options
    ensures var r := GlobalFrom(GlobalRows(glo, order), options);
            && r.cleanupCache == glo.cleanupCache && r.insecureTls == glo.insecureTls
            && r.noCache == glo.noCache && r.noLock == glo.noLock && r.options == options
    ensures GlobalRows(glo, order)[11] == OptionRow(order, glo.options)
  {
  }

  lemma GlobalRowsFit(glo: ResticGlobalOpts, order: seq<string>)
    requires forall k :: k in order ==> k in glo.options
    ensures Fits(GLOBAL_OPTIONS, GlobalRows(glo, order))
  {
  }

  lemma GlobalRowsRead(glo: ResticGlobalOpts, order: seq<string>, clock: DurationText)
    requires Enumerates(order, glo.options.Keys)
    ensures ReadGlobal(GlobalRows(glo, order)) == Some(NormalGlobal(glo)) <==> PlainKeys(glo.options)
  {
    var rows := GlobalRows(glo, order);
    GlobalFlagsRead(glo, order, glo.options);
    ReadOptionsExact(order, glo.options);
    if ReadOptions(rows[11]).Some? {
      var options := ReadOptions(rows[11]).value;
      GlobalValuesRead(glo, order, options, clock);
      GlobalFlagsRead(glo, order, options);
      SameGlobal(GlobalFrom(rows, options), NormalGlobal(glo));
    }
  }

  lemma SameGlobal(a: ResticGlobalOpts, b: ResticGlobalOpts)
    requires a.(options := b.options) == b
    ensures a == b <==> a.options == b.options
  {
  }

  // ----- The encoders ------------------------------------------------------------------------------

  lemma {:induction false} RepeatedIsOption(spec: OptionSpec, values: seq<string>)
    requires spec.valued
    ensures Repeated(spec.name, values) == OptionArgs(spec, values)
    decreases |values|
  {
    if values != [] {
      RepeatedIsOption(spec, values[..|values| - 1]);
    }
  }

  /** One `maybeAddArgString`, `Int` or `Bool` step is one option of the table. */
  lemma SingleOption(args: seq<string>, name: string, s: string, n: int, b: bool)
    ensures MaybeAddArgString(args, name, s) == args + OptionArgs(OptionSpec(name, true), StringRow(s))
    ensures MaybeAddArgInt(args, name, n) == args + OptionArgs(OptionSpec(name, true), IntRow(n))
    ensures MaybeAddArgBool(args, name, b) == args + OptionArgs(OptionSpec(name, false), BoolRow(b))
  {
    var single := [""];
    assert single[..0] == [];
    assert OptionArgs(OptionSpec(name, false), single) == [name];
    assert OptionArgs(OptionSpec(name, true), [s]) == [name, s];
    if n > 0 {
      assert OptionArgs(OptionSpec(name, true), [Decimal(n)]) == [name, Decimal(n)];
    }
  }

  /** Option `n` of a layout is called `name`, and has the values `row`. */
  ghost predicate IsOption(t: Table, rows: seq<seq<string>>, n: nat, name: string, valued: bool, row: seq<string>) {
    n < |t| && n < |rows| && t[n] == OptionSpec(name, valued) && rows[n] == row
  }

  // Each step appends option `n` of the layout and is told which option that is.

  method AddString(args: seq<string>, name: string, value: string, ghost t: Table, ghost rows: seq<seq<string>>, ghost n: nat)
    returns (r: seq<string>)
    requires IsOption(t, rows, n, name, true, StringRow(value)) && args == Laid(t, rows, n)
    ensures r == Laid(t, rows, n + 1)
  {
    SingleOption(args, name, value, 0, false);
    r := MaybeAddArgString(args, name, value);
  }

  method AddInt(args: seq<string>, name: string, value: int, ghost t: Table, ghost rows: seq<seq<string>>, ghost n: nat)
    returns (r: seq<string>)
    requires IsOption(t, rows, n, name, true, IntRow(value)) && args == Laid(t, rows, n)
    ensures r == Laid(t, rows, n + 1)
  {
    SingleOption(args, name, "", value, false);
    r := MaybeAddArgInt(args, name, value);
  }

  method AddBool(args: seq<string>, name: string, value: bool, ghost t: Table, ghost rows: seq<seq<string>>, ghost n: nat)
    returns (r: seq<string>)
    requires IsOption(t, rows, n, name, false, BoolRow(value)) && args == Laid(t, rows, n)
    ensures r == Laid(t, rows, n + 1)
  {
    SingleOption(args, name, "", 0, value);
    r := MaybeAddArgBool(args, name, value);
  }

  method AddList(args: seq<string>, name: string, values: seq<string>, ghost t: Table, ghost rows: seq<seq<string>>, ghost n: nat)
    returns (r: seq<string>)
    requires IsOption(t, rows, n, name, true, values) && args == Laid(t, rows, n)
    ensures r == Laid(t, rows, n + 1)
  {
    RepeatedIsOption(t[n], values);
    r := MaybeAddArgsList(args, name, values);
  }

  /** One `if d > 0` step of the keep-within group. */
  method AddDuration(args: seq<string>, name: string, d: int, clock: DurationText,
                     ghost t: Table, ghost rows: seq<seq<string>>, ghost n: nat)
    returns (r: seq<string>)
    requires IsOption(t, rows, n, name, true, DurationRow(clock, d)) && args == Laid(t, rows, n)
    ensures r == Laid(t, rows, n + 1)
  {
    r := args;
    if d > 0 {
      r := r + [name, clock.print_(d)];
      assert OptionArgs(OptionSpec(name, true), [clock.print_(d)]) == [name, clock.print_(d)];
    }
  }

  /** The loops over `Tags` and `KeepTags`. */
  method AddTagLists(args: seq<string>, name: string, lists: seq<TagList>,
                     ghost t: Table, ghost rows: seq<seq<string>>, ghost n: nat)
    returns (r: seq<string>)
    requires IsOption(t, rows, n, name, true, TagRow(lists)) && args == Laid(t, rows, n)
    ensures r == Laid(t, rows, n + 1)
  {
    r := args;
    for i := 0 to |lists|
      invariant r == args + OptionArgs(OptionSpec(name, true), TagRow(lists)[..i])
    {
      assert TagRow(lists)[..i + 1][..i] == TagRow(lists)[..i];
      r := r + [name, Join(lists[i], ",")];
    }
    assert TagRow(lists)[..|lists|] == TagRow(lists);
  }

  lemma OneMoreOption(order: seq<string>, key: string, options: map<string, string>)
    requires key in options && forall k :: k in order ==> k in options
    ensures OptionArgs(OptionSpec("--option", true), OptionRow(order + [key], options)) ==
            OptionArgs(OptionSpec("--option", true), OptionRow(order, options)) + ["--option", OptionText(key, options[key])]
  {
    assert OptionRow(order + [key], options)[..|order|] == OptionRow(order, options);
  }

  /** The range over `Options`, in whatever order it visits the keys. */
  method AddOptions(args: seq<string>, options: map<string, string>) returns (r: seq<string>)
    ensures exists order :: Enumerates(order, options.Keys) &&
              r == args + OptionArgs(OptionSpec("--option", true), OptionRow(order, options))
  {
    r := args;
    ghost var order: seq<string>, added: seq<string> := [], [];
    var rest := options.Keys;
    while rest != {}
      invariant rest <= options.Keys && r == args + added
      invariant Enumerates(order, options.Keys - rest)
      invariant added == OptionArgs(OptionSpec("--option", true), OptionRow(order, options))
    {
      var key :| key in rest;
      var text := OptionText(key, options[key]);
      r := r + ["--option", text];
      Associative(args, added, ["--option", text]);
      added := added + ["--option", text];
      OneMoreOption(order, key, options);
      EnumeratesMore(order, options.Keys - rest, key);
      order := order + [key];
      assert options.Keys - rest + {key} == options.Keys - (rest - {key});
      rest := rest - {key};
    }
    assert options.Keys - rest == options.Keys;
  }

  method UnlockToArgs(uo: UnlockOpts) returns (args: seq<string>)
    ensures args == Encoded(UNLOCK_OPTIONS, UnlockRows(uo))
  {
    args := AddBool([], "--remove-all", uo.removeAll, UNLOCK_OPTIONS, UnlockRows(uo), 0);
  }

  ghost predicate BackupLayout(bo: BackupOpts, t: Table, rows: seq<seq<string>>) {
    && |t| == |rows| == 4
    && IsOption(t, rows, 0, "--exclude", true, bo.exclude)
    && IsOption(t, rows, 1, "--include", true, bo.includes)
    && IsOption(t, rows, 2, "--tag", true, bo.tags)
    && IsOption(t, rows, 3, "--host", true, StringRow(bo.host))
  }

  method BackupToArgsOf(bo: BackupOpts, ghost t: Table, ghost rows: seq<seq<string>>) returns (args: seq<string>)
    requires BackupLayout(bo, t, rows)
    ensures args == Encoded(t, rows)
  {
    args := AddList([], "--exclude", bo.exclude, t, rows, 0);
    args := AddList(args, "--include", bo.includes, t, rows, 1);
    args := AddList(args, "--tag", bo.tags, t, rows, 2);
    args := AddString(args, "--host", bo.host, t, rows, 3);
  }

  method BackupToArgs(bo: BackupOpts) returns (args: seq<string>)
    ensures args == Encoded(BACKUP_OPTIONS, BackupRows(bo))
  {
    args := BackupToArgsOf(bo, BACKUP_OPTIONS, BackupRows(bo));
  }

  ghost predicate RestoreLayout(ro: RestoreOpts, t: Table, rows: seq<seq<string>>) {
    && |t| == |rows| == 7
    && IsOption(t, rows, 0, "--exclude", true, ro.exclude)
    && IsOption(t, rows, 1, "--include", true, ro.includes)
    && IsOption(t, rows, 2, "--host", true, ro.host)
    && IsOption(t, rows, 3, "--tag", true, ro.tags)
    && IsOption(t, rows, 4, "--path", true, StringRow(ro.path))
    && IsOption(t, rows, 5, "--target", true, StringRow(ro.target))
    && IsOption(t, rows, 6, "--verify", false, BoolRow(ro.verifies))
  }

  method RestoreToArgsOf(ro: RestoreOpts, ghost t: Table, ghost rows: seq<seq<string>>) returns (args: seq<string>)
    requires RestoreLayout(ro, t, rows)
    ensures args == Encoded(t, rows)
  {
    args := AddList([], "--exclude", ro.exclude, t, rows, 0);
    args := AddList(args, "--include", ro.includes, t, rows, 1);
    args := AddList(args, "--host", ro.host, t, rows, 2);
    args := AddList(args, "--tag", ro.tags, t, rows, 3);
    args := AddString(args, "--path", ro.path, t, rows, 4);
    args := AddString(args, "--target", ro.target, t, rows, 5);
    args := AddBool(args, "--verify", ro.verifies, t, rows, 6);
  }

  method RestoreToArgs(ro: RestoreOpts) returns (args: seq<string>)
    ensures args == Encoded(RESTORE_OPTIONS, RestoreRows(ro))
  {
    args := RestoreToArgsOf(ro, RESTORE_OPTIONS, RestoreRows(ro));
  }

  /** The counts at the head of the forget options, the keep-within group, and the rest. */
  ghost predicate ForgetCountsLayout(fo: ForgetOpts, t: Table, rows: seq<seq<string>>) {
    && IsOption(t, rows, 0, "--keep-last", true, IntRow(fo.keepLast))
    && IsOption(t, rows, 1, "--keep-hourly", true, IntRow(fo.keepHourly))
    && IsOption(t, rows, 2, "--keep-daily", true, IntRow(fo.keepDaily))
    && IsOption(t, rows, 3, "--keep-weekly", true, IntRow(fo.keepWeekly))
    && IsOption(t, rows, 4, "--keep-monthly", true, IntRow(fo.keepMonthly))
    && IsOption(t, rows, 5, "--keep-yearly", true, IntRow(fo.keepYearly))
  }

  ghost predicate ForgetWithinLayout(fo: ForgetOpts, clock: DurationText, t: Table, rows: seq<seq<string>>) {
    && IsOption(t, rows, 6, "--keep-within", true, DurationRow(clock, fo.keepWithin))
    && IsOption(t, rows, 7, "--keep-within-hourly", true, DurationRow(clock, fo.keepWithinHourly))
    && IsOption(t, rows, 8, "--keep-within-daily", true, DurationRow(clock, fo.keepWithinDaily))
    && IsOption(t, rows, 9, "--keep-within-weekly", true, DurationRow(clock, fo.keepWithinWeekly))
    && IsOption(t, rows, 10, "--keep-within-monthly", true, DurationRow(clock, fo.keepWithinMonthly))
    && IsOption(t, rows, 11, "--keep-within-yearly", true, DurationRow(clock, fo.keepWithinYearly))
  }

  ghost predicate ForgetTagsLayout(fo: ForgetOpts, t: Table, rows: seq<seq<string>>) {
    && |t| == |rows| == 15
    && IsOption(t, rows, 12, "--tag", true, TagRow(fo.tags))
    && IsOption(t, rows, 13, "--keep-tag", true, TagRow(fo.keepTags))
    && IsOption(t, rows, 14, "--prune", false, BoolRow(fo.prune))
  }

  method ForgetCounts(fo: ForgetOpts, ghost t: Table, ghost rows: seq<seq<string>>) returns (args: seq<string>)
    requires |t| == |rows| && ForgetCountsLayout(fo, t, rows)
    ensures args == Laid(t, rows, 6)
  {
    args := AddInt([], "--keep-last", fo.keepLast, t, rows, 0);
    args := AddInt(args, "--keep-hourly", fo.keepHourly, t, rows, 1);
    args := AddInt(args, "--keep-daily", fo.keepDaily, t, rows, 2);
    args := AddInt(args, "--keep-weekly", fo.keepWeekly, t, rows, 3);
    args := AddInt(args, "--keep-monthly", fo.keepMonthly, t, rows, 4);
    args := AddInt(args, "--keep-yearly", fo.keepYearly, t, rows, 5);
  }

  method ForgetWithin(before: seq<string>, fo: ForgetOpts, clock: DurationText, ghost t: Table, ghost rows: seq<seq<string>>)
    returns (args: seq<string>)
    requires |t| == |rows| && ForgetWithinLayout(fo, clock, t, rows) && before == Laid(t, rows, 6)
    ensures args == Laid(t, rows, 12)
  {
    args := AddDuration(before, "--keep-within", fo.keepWithin, clock, t, rows, 6);
    args := AddDuration(args, "--keep-within-hourly", fo.keepWithinHourly, clock, t, rows, 7);
    args := AddDuration(args, "--keep-within-daily", fo.keepWithinDaily, clock, t, rows, 8);
    args := AddDuration(args, "--keep-within-weekly", fo.keepWithinWeekly, clock, t, rows, 9);
    args := AddDuration(args, "--keep-within-monthly", fo.keepWithinMonthly, clock, t, rows, 10);
    args := AddDuration(args, "--keep-within-yearly", fo.keepWithinYearly, clock, t, rows, 11);
  }

  method ForgetTags(before: seq<string>, fo: ForgetOpts, ghost t: Table, ghost rows: seq<seq<string>>)
    returns (args: seq<string>)
    requires ForgetTagsLayout(fo, t, rows) && before == Laid(t, rows, 12)
    ensures args == Encoded(t, rows)
  {
    args := AddTagLists(before, "--tag", fo.tags, t, rows, 12);
    args := AddTagLists(args, "--keep-tag", fo.keepTags, t, rows, 13);
    args := AddBool(args, "--prune", fo.prune, t, rows, 14);
  }

  lemma ForgetLayout(fo: ForgetOpts, clock: DurationText)
    ensures ForgetCountsLayout(fo, FORGET_OPTIONS, ForgetRows(fo, clock))
    ensures ForgetTagsLayout(fo, FORGET_OPTIONS, ForgetRows(fo, clock))
  {
  }

  lemma ForgetMiddleLayout(fo: ForgetOpts, clock: DurationText)
    ensures ForgetWithinLayout(fo, clock, FORGET_OPTIONS, ForgetRows(fo, clock))
  {
  }

  method ForgetToArgs(fo: ForgetOpts, clock: DurationText) returns (args: seq<string>)
    ensures args == Encoded(FORGET_OPTIONS, ForgetRows(fo, clock))
  {
    ghost var t, rows := FORGET_OPTIONS, ForgetRows(fo, clock);
    ForgetLayout(fo, clock);
    ForgetMiddleLayout(fo, clock);
    args := ForgetCounts(fo, t, rows);
    args := ForgetWithin(args, fo, clock, t, rows);
    args := ForgetTags(args, fo, t, rows);
  }

  /** The files and numbers at the head of the global options, their flags, and the map. */
  ghost predicate GlobalValuesLayout(glo: ResticGlobalOpts, t: Table, rows: seq<seq<string>>) {
    && IsOption(t, rows, 0, "--cacert", true, StringRow(glo.caCertFile))
    && IsOption(t, rows, 1, "--cache-dir", true, StringRow(glo.cacheDir))
    && IsOption(t, rows, 2, "--password-file", true, StringRow(glo.passwordFile))
    && IsOption(t, rows, 3, "--tls-client-cert", true, StringRow(glo.tlsClientCertFile))
    && IsOption(t, rows, 4, "--limit-download", true, IntRow(glo.limitDownload))
    && IsOption(t, rows, 5, "--limit-upload", true, IntRow(glo.limitUpload))
    && IsOption(t, rows, 6, "--verbose", true, IntRow(glo.verboseLevel))
  }

  ghost predicate GlobalFlagsLayout(glo: ResticGlobalOpts, t: Table, rows: seq<seq<string>>) {
    && |t| == |rows| == 12
    && IsOption(t, rows, 7, "--cleanup-cache", false, BoolRow(glo.cleanupCache))
    && IsOption(t, rows, 8, "--insecure-tls", false, BoolRow(glo.insecureTls))
    && IsOption(t, rows, 9, "--no-cache", false, BoolRow(glo.noCache))
    && IsOption(t, rows, 10, "--no-lock", false, BoolRow(glo.noLock))
    && t[11] == OptionSpec("--option", true)
  }

  method GlobalValues(glo: ResticGlobalOpts, ghost t: Table, ghost rows: seq<seq<string>>) returns (args: seq<string>)
    requires |t| == |rows| && GlobalValuesLayout(glo, t, rows)
    ensures args == Laid(t, rows, 7)
  {
    args := AddString([], "--cacert", glo.caCertFile, t, rows, 0);
    args := AddString(args, "--cache-dir", glo.cacheDir, t, rows, 1);
    args := AddString(args, "--password-file", glo.passwordFile, t, rows, 2);
    args := AddString(args, "--tls-client-cert", glo.tlsClientCertFile, t, rows, 3);
    args := AddInt(args, "--limit-download", glo.limitDownload, t, rows, 4);
    args := AddInt(args, "--limit-upload", glo.limitUpload, t, rows, 5);
    args := AddInt(args, "--verbose", glo.verboseLevel, t, rows, 6);
  }

  method GlobalFlags(before: seq<string>, glo: ResticGlobalOpts, ghost t: Table, ghost rows: seq<seq<string>>)
    returns (args: seq<string>)
    requires GlobalFlagsLayout(glo, t, rows) && before == Laid(t, rows, 7)
    ensures args == Laid(t, rows, 11)
  {
    args := AddBool(before, "--cleanup-cache", glo.cleanupCache, t, rows, 7);
    args := AddBool(args, "--insecure-tls", glo.insecureTls, t, rows, 8);
    args := AddBool(args, "--no-cache", glo.noCache, t, rows, 9);
    args := AddBool(args, "--no-lock", glo.noLock, t, rows, 10);
  }

  lemma GlobalLayout(glo: ResticGlobalOpts, order: seq<string>)
    requires forall k :: k in order ==> k in glo.options
    ensures GlobalFlagsLayout(glo, GLOBAL_OPTIONS, GlobalRows(glo, order))
    ensures GlobalRows(glo, order)[11] == OptionRow(order, glo.options)
  {
  }

  lemma GlobalHeadLayout(glo: ResticGlobalOpts, order: seq<string>)
    requires forall k :: k in order ==> k in glo.options
    ensures GlobalValuesLayout(glo, GLOBAL_OPTIONS, GlobalRows(glo, order))
  {
  }

  method GlobalToArgs(glo: ResticGlobalOpts) returns (args: seq<string>)
    ensures exists order :: Enumerates(order, glo.options.Keys) && args == Encoded(GLOBAL_OPTIONS, GlobalRows(glo, order))
  {
    ghost var t, rows := GLOBAL_OPTIONS, GlobalRows(glo, []);
    GlobalHeadLayout(glo, []);
    GlobalLayout(glo, []);
    args := GlobalValues(glo, t, rows);
    args := GlobalFlags(args, glo, t, rows);
    args := AddOptions(args, glo.options);
    ghost var order :| Enumerates(order, glo.options.Keys) &&
      args == Laid(t, rows, 11) + OptionArgs(OptionSpec("--option", true), OptionRow(order, glo.options));
    GlobalHeadLayout(glo, order);
    GlobalLayout(glo, order);
    GlobalComplete(glo, t, rows, GlobalRows(glo, order), OptionRow(order, glo.options));
  }

  /** The rows before the map do not depend on the order in which it is visited. */
  lemma GlobalComplete(glo: ResticGlobalOpts, t: Table, before: seq<seq<string>>, rows: seq<seq<string>>, last: seq<string>)
    requires GlobalValuesLayout(glo, t, before) && GlobalFlagsLayout(glo, t, before)
    requires GlobalValuesLayout(glo, t, rows) && GlobalFlagsLayout(glo, t, rows) && rows[11] == last
    ensures Encoded(t, rows) == Laid(t, before, 11) + OptionArgs(OptionSpec("--option", true), last)
  {
    LaidPrefix(t, rows, before, 11);
  }
}
