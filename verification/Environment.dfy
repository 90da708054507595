/**
 The environment a child process ends up with: tasks.go and shell.go for task scripts, restic.go for
 restic itself. The operating system's own environment is a parameter, `os`.
 */
module Environment {
  import opened Wrappers
  import opened Text
  import opened Utils

  /** What a process reads as the name of an environment entry: the part before the first `=`. */
  function EntryName(entry: string): string { entry[..IndexOf(entry, '=')] }

  function EntryValue(entry: string): string {
    var i := IndexOf(entry, '=');
    if i < |entry| then entry[i + 1..] else ""
  }

  /** The value of `name` in an environment list; of several entries for one name the last wins. */
  function Lookup(envList: seq<string>, name: string): Option<string>
    decreases |envList|
  {
    if envList == [] then None
    else
      var last := envList[|envList| - 1];
      if '=' in last && EntryName(last) == name then Some(EntryValue(last))
      else Lookup(envList[..|envList| - 1], name)
  }

  /** The environment `os` overridden by the map `env`. */
  function Overridden(os: seq<string>, env: map<string, string>, name: string): Option<string> {
    if name in env then Some(env[name]) else Lookup(os, name)
  }

  /** A process with this environment list sees `os` overridden by `env`, for every name. */
  ghost predicate Sees(envList: seq<string>, os: seq<string>, env: map<string, string>) {
    forall name :: Lookup(envList, name) == Overridden(os, env, name)
  }

  /** A map whose names can all be told apart from their values in a `name=value` entry. */
  ghost predicate PlainNames(env: map<string, string>) {
    forall k :: k in env ==> '=' !in k
  }

  lemma EntryParts(name: string, value: string)
    ensures '=' !in name ==> EntryName(name + "=" + value) == name && EntryValue(name + "=" + value) == value
    ensures '=' !in EntryName(name + "=" + value)
  {
    var e := name + "=" + value;
    if '=' !in name {
      IndexAfterPrefix(name, '=', value);
      assert e[..|name|] == name && e[|name| + 1..] == value;
    }
  }

  lemma LookupPlainOnly(envList: seq<string>, name: string)
    requires '=' in name
    ensures Lookup(envList, name).None?
  {
    if envList != [] {
      var last := envList[|envList| - 1];
      assert '=' !in EntryName(last);
    }
  }

  lemma LookupAppend(list: seq<string>, k: string, value: string, name: string)
    requires '=' !in k
    ensures Lookup(list + [k + "=" + value], name) == if k == name then Some(value) else Lookup(list, name)
  {
    var longer := list + [k + "=" + value];
    assert longer[..|longer| - 1] == list;
    EntryParts(k, value);
  }

  lemma {:induction false} LookupEntries(os: seq<string>, order: seq<string>, env: map<string, string>, name: string)
    requires PlainNames(env) && forall k :: k in order ==> k in env
    ensures Lookup(os + EnvEntries(order, env), name) == if name in order then Some(env[name]) else Lookup(os, name)
    decreases |order|
  {
    if order == [] {
      assert os + EnvEntries(order, env) == os;
    } else {
      var front, k := order[..|order| - 1], order[|order| - 1];
      assert k in order && order == front + [k];
      LookupEntries(os, front, env, name);
      Associative(os, EnvEntries(front, env), [k + "=" + env[k]]);
      LookupAppend(os + EnvEntries(front, env), k, env[k], name);
    }
  }

  /** A name with a `=` is never seen, so no list shows a map that has one. */
  lemma OddNamesUnseen(seen: seq<string>, os: seq<string>, env: map<string, string>)
    requires !PlainNames(env)
    ensures !Sees(seen, os, env)
  {
    var k :| k in env && '=' in k;
    LookupPlainOnly(seen, k);
    assert Lookup(seen, k) != Overridden(os, env, k);
  }

  lemma PlainTogether(a: map<string, string>, b: map<string, string>)
    ensures PlainNames(a + b) <==> PlainNames(a) && PlainNames(b)
  {
    assert forall k :: k in a + b <==> k in a || k in b;
  }

  /**
   In whatever order the range over `env` appended its entries, the process sees `os` overridden by
   `env` -- exactly when no name contains a `=`.
   */
  lemma EntriesOverride(os: seq<string>, order: seq<string>, env: map<string, string>)
    requires Enumerates(order, env.Keys)
    ensures Sees(os + EnvEntries(order, env), os, env) <==> PlainNames(env)
  {
    var list := os + EnvEntries(order, env);
    if PlainNames(env) {
      forall name ensures Lookup(list, name) == Overridden(os, env, name) {
        LookupEntries(os, order, env, name);
      }
    } else {
      OddNamesUnseen(list, os, env);
    }
  }

  /** The environment choice of `RunShell`: with nothing to add no list is built and `os` is inherited. */
  method ShellEnvironment(os: seq<string>, env: map<string, string>) returns (seen: seq<string>)
    ensures Sees(seen, os, env) <==> PlainNames(env)
  {
    if |env| > 0 {
      var envList := EnvMapToList(env);
      ghost var order :| Enumerates(order, env.Keys) && envList == EnvEntries(order, env);
      EntriesOverride(os, order, env);
      seen := os + envList;
    } else {
      seen := os;
    }
  }

  /**
   The environment of a task script (`JobTaskScript.run`): the operating system's, overridden by the
   job's, overridden by the script's own -- exactly when all configured names are free of `=`.
   */
  method ScriptEnvironment(os: seq<string>, jobEnv: map<string, string>, scriptEnv: map<string, string>)
    returns (seen: seq<string>)
    ensures Sees(seen, os, jobEnv + scriptEnv) <==> PlainNames(jobEnv) && PlainNames(scriptEnv)
  {
    var env := MergeEnvMap(jobEnv, scriptEnv);
    seen := ShellEnvironment(os, env);
    PlainTogether(jobEnv, scriptEnv);
  }

  const RESTIC_PASSWORD := "RESTIC_PASSWORD"

  /** The map after `BuildEnv` has put a non-empty passphrase into it. */
  function WithPassphrase(env: map<string, string>, passphrase: string): map<string, string> {
    if passphrase != "" then env[RESTIC_PASSWORD := passphrase] else env
  }

  lemma PassphrasePlain(env: map<string, string>, passphrase: string)
    ensures PlainNames(WithPassphrase(env, passphrase)) <==> PlainNames(env)
    ensures WithPassphrase(WithPassphrase(env, passphrase), passphrase) == WithPassphrase(env, passphrase)
  {
    assert '=' !in RESTIC_PASSWORD;
    if passphrase != "" {
      assert forall k :: k in WithPassphrase(env, passphrase) <==> k in env || k == RESTIC_PASSWORD;
    }
  }

  /** A Go map behind a reference: everyone holding it sees every write. */
  class EnvMap {
    var entries: map<string, string>

    constructor (entries: map<string, string>)
      ensures this.entries == entries
    {
      this.entries := entries;
    }
  }

  /** What a nil or non-nil Go map holds. */
  function EntriesOf(env: EnvMap?): map<string, string>
    reads env
  {
    if env == null then map[] else env.entries
  }

  /** The part of restic.go's `Restic` that decides the environment; `env == null` is a nil Go map. */
  class Restic {
    const env: EnvMap?
    const passphrase: string

    /** `Job.NewRestic`: the new value shares the job's map. */
    constructor (env: EnvMap?, passphrase: string)
      ensures this.env == env && this.passphrase == passphrase
    {
      this.env := env;
      this.passphrase := passphrase;
    }

    /** `BuildEnv`. The receiver is a copy, so a map made for a nil `Env` is not kept. */
    method BuildEnv(os: seq<string>) returns (envList: seq<string>)
      modifies if env == null then {} else {env}
      ensures env != null ==> env.entries == WithPassphrase(old(env.entries), passphrase)
      ensures env != null ==>
                env.entries == if passphrase == "" then old(env.entries) else old(env.entries)["RESTIC_PASSWORD" := passphrase]
      ensures passphrase != "" && PlainNames(old(EntriesOf(env))) ==> Lookup(envList, "RESTIC_PASSWORD") == Some(passphrase)
      ensures Sees(envList, os, WithPassphrase(old(EntriesOf(env)), passphrase)) <==> PlainNames(old(EntriesOf(env)))
    {
      PassphrasePlain(EntriesOf(env), passphrase);
      var local: EnvMap;
      if env == null {
        local := new EnvMap(map[]);
      } else {
        local := env;
      }
      if passphrase != "" {
        local.entries := local.entries[RESTIC_PASSWORD := passphrase];
      }
      var added := EnvMapToList(local.entries);
      ghost var order :| Enumerates(order, local.entries.Keys) && added == EnvEntries(order, local.entries);
      envList := os + added;
      EntriesOverride(os, order, local.entries);
    }
  }

  /**
   Any number of restic commands, each by any of the `Restic` values made for one job: every command
   sees `os` overridden by the job's original map overridden by a non-empty passphrase, and the shared
   map does not change after the first command.
   */
  method RunCommands(calls: seq<Restic>, shared: EnvMap?, passphrase: string, os: seq<string>)
    returns (seen: seq<seq<string>>)
    requires forall r :: r in calls ==> r.env == shared && r.passphrase == passphrase
    modifies if shared == null then {} else {shared}
    ensures shared != null && calls != [] ==> shared.entries == WithPassphrase(old(shared.entries), passphrase)
    ensures shared != null && calls == [] ==> shared.entries == old(shared.entries)
    ensures |seen| == |calls|
    ensures forall i :: 0 <= i < |seen| ==>
      (Sees(seen[i], os, WithPassphrase(old(EntriesOf(shared)), passphrase)) <==> PlainNames(old(EntriesOf(shared))))
  {
    seen := [];
    ghost var original := EntriesOf(shared);
    ghost var built := WithPassphrase(original, passphrase);
    PassphrasePlain(original, passphrase);
    for i := 0 to |calls|
      invariant |seen| == i
      invariant shared != null ==> shared.entries == if i == 0 then original else built
      invariant forall k :: 0 <= k < i ==> (Sees(seen[k], os, built) <==> PlainNames(original))
    {
      assert calls[i] in calls;
      var envList := calls[i].BuildEnv(os);
      seen := seen + [envList];
    }
  }

  /**
   When a script cannot tell the shared map from the one the job configured: nothing was put into it, the
   script overrides what was put there, or the passphrase is what it would have seen anyway.
   */
  ghost predicate PassphraseUnseen(os: seq<string>, env: map<string, string>, passphrase: string, scriptEnv: map<string, string>) {
    || passphrase == ""
    || RESTIC_PASSWORD in scriptEnv
    || Overridden(os, env, RESTIC_PASSWORD) == Some(passphrase)
  }

  /** Overriding with the map after `BuildEnv` is overriding with the configured map, exactly then. */
  lemma SameOverrideExactly(os: seq<string>, env: map<string, string>, passphrase: string, scriptEnv: map<string, string>)
    ensures (forall name :: Overridden(os, WithPassphrase(env, passphrase) + scriptEnv, name) == Overridden(os, env + scriptEnv, name))
            <==> PassphraseUnseen(os, env, passphrase, scriptEnv)
  {
    var built, configured := WithPassphrase(env, passphrase) + scriptEnv, env + scriptEnv;
    if PassphraseUnseen(os, env, passphrase, scriptEnv) {
      forall name ensures Overridden(os, built, name) == Overridden(os, configured, name) {
      }
    } else {
      assert Overridden(os, built, RESTIC_PASSWORD) != Overridden(os, configured, RESTIC_PASSWORD);
    }
  }

  /** A list that shows one override shows another exactly if they are the same override. */
  lemma SeesOther(seen: seq<string>, os: seq<string>, built: map<string, string>, configured: map<string, string>)
    requires Sees(seen, os, built)
    ensures Sees(seen, os, configured) <==> forall name :: Overridden(os, built, name) == Overridden(os, configured, name)
  {
    assert forall name :: Lookup(seen, name) == Overridden(os, built, name);
  }

  /**
   The scripts of one `RunBackup` or `RunRestore`: restic has run once before the first script
   (`EnsureInit`, or the snapshot probe), and `TaskConfig.Env` is the same shared map. What a script
   sees is the inherited environment overridden by the job's configured map overridden by the script's
   own exactly if names are plain and either the job has no map to share or the passphrase goes unseen.
   */
  method ScriptAfterRestic(shared: EnvMap?, passphrase: string, scriptEnv: map<string, string>, os: seq<string>)
    returns (seen: seq<string>)
    modifies if shared == null then {} else {shared}
    ensures Sees(seen, os, (if shared == null then map[] else WithPassphrase(old(shared.entries), passphrase)) + scriptEnv) <==>
            PlainNames(old(EntriesOf(shared))) && PlainNames(scriptEnv)
    ensures Sees(seen, os, old(EntriesOf(shared)) + scriptEnv) <==>
            && PlainNames(old(EntriesOf(shared))) && PlainNames(scriptEnv)
            && (shared == null || PassphraseUnseen(os, old(EntriesOf(shared)), passphrase, scriptEnv))
  {
    ghost var configured := EntriesOf(shared);
    PassphrasePlain(configured, passphrase);
    var restic := new Restic(shared, passphrase);
    var _ := restic.BuildEnv(os);
    if shared == null {
      seen := ScriptEnvironment(os, map[], scriptEnv);
      assert configured + scriptEnv == map[] + scriptEnv;
    } else {
      seen := ScriptEnvironment(os, shared.entries, scriptEnv);
      SameOverrideExactly(os, configured, passphrase, scriptEnv);
      PlainTogether(configured, scriptEnv);
      if PlainNames(configured + scriptEnv) {
        SeesOther(seen, os, WithPassphrase(configured, passphrase) + scriptEnv, configured + scriptEnv);
      } else {
        OddNamesUnseen(seen, os, configured + scriptEnv);
      }
    }
  }

  /**
   A job with an empty map of its own, any passphrase, a script that sets nothing, nothing inherited: the
   script sees the passphrase, which neither its own map nor the job's names. Without a map it does not.
   */
  method PassphraseReachesScript(passphrase: string) returns (withMap: seq<string>, withoutMap: seq<string>)
    requires passphrase != ""
    ensures Lookup(withMap, RESTIC_PASSWORD) == Some(passphrase) && !Sees(withMap, [], map[])
    ensures Lookup(withoutMap, RESTIC_PASSWORD) == None && Sees(withoutMap, [], map[])
  {
    var shared := new EnvMap(map[]);
    ghost var none: map<string, string> := map[];
    assert none + none == none;
    withMap := ScriptAfterRestic(shared, passphrase, map[], []);
    withoutMap := ScriptAfterRestic(null, passphrase, map[], []);
    assert Lookup(withMap, RESTIC_PASSWORD) == Overridden([], WithPassphrase(map[], passphrase) + map[], RESTIC_PASSWORD);
    assert Lookup(withoutMap, RESTIC_PASSWORD) == Overridden([], map[], RESTIC_PASSWORD);
  }
}
