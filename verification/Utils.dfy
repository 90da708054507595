/** utils.go: name sets, environment maps and the helpers that grow an argument list. */
module Utils {
  import opened Text

  /** `NewSetFrom`: the set of the listed names. */
  method NewSetFrom(l: seq<string>) returns (s: set<string>)
    ensures forall x :: x in s <==> x in l
  {
    s := {};
    for i := 0 to |l|
      invariant forall x :: x in s <==> x in l[..i]
    {
      s := s + {l[i]};
    }
    assert l[..|l|] == l;
  }

  /** `MergeEnvMap`: `child` laid over `parent`, whatever order the keys are visited in. */
  method MergeEnvMap(parent: map<string, string>, child: map<string, string>) returns (result: map<string, string>)
    ensures result == parent + child
  {
    result := map[];
    var rest := parent.Keys;
    while rest != {}
      invariant rest <= parent.Keys
      invariant result == map k | k in parent.Keys - rest :: parent[k]
    {
      var key :| key in rest;
      result := result[key := parent[key]];
      rest := rest - {key};
    }
    assert result == parent;
    rest := child.Keys;
    while rest != {}
      invariant rest <= child.Keys
      invariant result == parent + map k | k in child.Keys - rest :: child[k]
    {
      var key :| key in rest;
      result := result[key := child[key]];
      rest := rest - {key};
    }
    assert (map k | k in child.Keys - {} :: child[k]) == child;
  }

  /** `order` visits every key once: one of the orders in which Go may range over a map. */
  ghost predicate Enumerates(order: seq<string>, keys: set<string>) {
    && (forall k :: k in order <==> k in keys)
    && (forall i, j :: 0 <= i < j < |order| ==> order[i] != order[j])
  }

  lemma EnumeratesMore(order: seq<string>, keys: set<string>, key: string)
    requires Enumerates(order, keys) && key !in keys
    ensures Enumerates(order + [key], keys + {key})
  {
  }

  /** The `name=value` entries of a map, visited in the given order. */
  function EnvEntries(order: seq<string>, env: map<string, string>): (entries: seq<string>)
    requires forall k :: k in order ==> k in env
    ensures |entries| == |order|
  {
    if order == [] then []
    else
      var k := order[|order| - 1];
      EnvEntries(order[..|order| - 1], env) + [k + "=" + env[k]]
  }

  /** `EnvMapToList`: the entries of the map, in whatever order the range visits them. */
  method EnvMapToList(env: map<string, string>) returns (envList: seq<string>)
    ensures exists order :: Enumerates(order, env.Keys) && envList == EnvEntries(order, env)
  {
    envList := [];
    ghost var order: seq<string> := [];
    var rest := env.Keys;
    while rest != {}
      invariant rest <= env.Keys
      invariant Enumerates(order, env.Keys - rest)
      invariant envList == EnvEntries(order, env)
    {
      var name :| name in rest;
      envList := envList + [name + "=" + env[name]];
      assert (order + [name])[..|order|] == order;
      EnumeratesMore(order, env.Keys - rest, name);
      assert env.Keys - rest + {name} == env.Keys - (rest - {name});
      order := order + [name];
      rest := rest - {name};
    }
    assert env.Keys - rest == env.Keys;
  }

  function MaybeAddArgString(args: seq<string>, name: string, value: string): seq<string> {
    if value != "" then args + [name, value] else args
  }

  function MaybeAddArgInt(args: seq<string>, name: string, value: int): seq<string> {
    if value > 0 then args + [name, Decimal(value)] else args
  }

  function MaybeAddArgBool(args: seq<string>, name: string, value: bool): seq<string> {
    if value then args + [name] else args
  }

  /** The option `name` once per value: `name v0 name v1 ...`. */
  function Repeated(name: string, values: seq<string>): (args: seq<string>)
    ensures |args| == 2 * |values|
    ensures forall i :: 0 <= i < |values| ==> args[2 * i] == name && args[2 * i + 1] == values[i]
  {
    if values == [] then [] else Repeated(name, values[..|values| - 1]) + [name, values[|values| - 1]]
  }

  /** `maybeAddArgsList`. */
  method MaybeAddArgsList(args: seq<string>, name: string, value: seq<string>) returns (r: seq<string>)
    ensures r == args + Repeated(name, value)
  {
    r := args;
    for i := 0 to |value|
      invariant r == args + Repeated(name, value[..i])
    {
      assert value[..i + 1][..i] == value[..i];
      r := r + [name, value[i]];
    }
    assert value[..|value|] == value;
  }
}
