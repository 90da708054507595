/**
 Argument lists in general: a command's options as a table, the arguments an encoder appends option by
 option, and a left-to-right scanner that takes them apart again.
 */
module Arguments {
  import opened Wrappers

  /** An option: a bare flag, or a name followed by a value. */
  datatype OptionSpec = OptionSpec(name: string, valued: bool)

  type Table = seq<OptionSpec>

  ghost predicate Distinct(table: Table) {
    forall i, j :: 0 <= i < j < |table| ==> table[i].name != table[j].name
  }

  /** Position of the option called `token`. */
  function Find(table: Table, token: string): (r: Option<nat>)
    ensures r.Some? ==> r.value < |table| && table[r.value].name == token
    ensures r.None? ==> forall i :: 0 <= i < |table| ==> table[i].name != token
  {
    if table == [] then None
    else
      var n := |table| - 1;
      if table[n].name == token then Some(n) else Find(table[..n], token)
  }

  /** One use of an option; a flag has the value "". */
  datatype Item = Item(index: nat, value: string)

  predicate ItemFits(table: Table, item: Item) {
    item.index < |table| && (!table[item.index].valued ==> item.value == "")
  }

  /** The tokens of one option use. */
  function UseArgs(spec: OptionSpec, value: string): seq<string> {
    if spec.valued then [spec.name, value] else [spec.name]
  }

  function ItemArgs(table: Table, item: Item): seq<string> {
    if item.index < |table| then UseArgs(table[item.index], item.value) else []
  }

  /** The uses of option `index`, one per value. */
  function Uses(index: nat, values: seq<string>): (items: seq<Item>)
    ensures |items| == |values|
    ensures forall i :: 0 <= i < |items| ==> items[i] == Item(index, values[i])
  {
    seq(|values|, i requires 0 <= i < |values| => Item(index, values[i]))
  }

  lemma UsesGrow(index: nat, values: seq<string>)
    requires values != []
    ensures Uses(index, values) == Uses(index, values[..|values| - 1]) + [Item(index, values[|values| - 1])]
  {
  }

  /** All uses, option by option in table order; `rows[i]` are the values of option `i`. */
  function Items(rows: seq<seq<string>>): seq<Item> {
    if rows == [] then []
    else Items(rows[..|rows| - 1]) + Uses(|rows| - 1, rows[|rows| - 1])
  }

  ghost predicate Fits(table: Table, rows: seq<seq<string>>) {
    && |rows| == |table|
    && forall i :: 0 <= i < |rows| && !table[i].valued ==> forall v :: v in rows[i] ==> v == ""
  }

  /** The arguments for some option uses. */
  function Args(table: Table, items: seq<Item>): seq<string> {
    if items == [] then []
    else Args(table, items[..|items| - 1]) + ItemArgs(table, items[|items| - 1])
  }

  lemma ArgsAppend(table: Table, items: seq<Item>, last: Item)
    ensures Args(table, items + [last]) == Args(table, items) + ItemArgs(table, last)
  {
    assert (items + [last])[..|items|] == items;
  }

  lemma {:induction false} ItemsFit(table: Table, rows: seq<seq<string>>)
    requires |rows| <= |table|
    requires forall i :: 0 <= i < |rows| && !table[i].valued ==> forall v :: v in rows[i] ==> v == ""
    ensures forall item :: item in Items(rows) ==> ItemFits(table, item)
  {
    if rows != [] {
      var n := |rows| - 1;
      ItemsFit(table, rows[..n]);
      forall item | item in Items(rows) ensures ItemFits(table, item) {
        if item in Uses(n, rows[n]) {
          assert item.value in rows[n];
        } else {
          assert item in Items(rows[..n]);
        }
      }
    }
  }

  datatype Scanned = Scanned(items: seq<Item>, rest: seq<string>)

  /** Takes options off the front until a token that is no option; `None` when a value is missing. */
  function Scan(table: Table, tokens: seq<string>): Option<Scanned> {
    if tokens == [] then Some(Scanned([], []))
    else
      match Find(table, tokens[0])
      case None => Some(Scanned([], tokens))
      case Some(i) =>
        if !table[i].valued then Prepend([Item(i, "")], Scan(table, tokens[1..]))
        else if |tokens| < 2 then None
        else Prepend([Item(i, tokens[1])], Scan(table, tokens[2..]))
  }

  function Prepend(items: seq<Item>, scanned: Option<Scanned>): Option<Scanned> {
    match scanned
    case None => None
    case Some(s) => Some(Scanned(items + s.items, s.rest))
  }

  lemma {:induction false} ScanStops(table: Table, tokens: seq<string>)
    ensures tokens == [] || Find(table, tokens[0]).None? ==> Scan(table, tokens) == Some(Scanned([], tokens))
    ensures tokens != [] && Find(table, tokens[0]).Some? && Scan(table, tokens).Some? ==>
              |Scan(table, tokens).value.rest| < |tokens|
    ensures Scan(table, tokens).Some? ==> |Scan(table, tokens).value.rest| <= |tokens|
    decreases |tokens|
  {
    if tokens != [] && Find(table, tokens[0]).Some? {
      ScanStops(table, tokens[1..]);
      if |tokens| > 1 {
        ScanStops(table, tokens[2..]);
      }
    }
  }

  lemma PrependTwice(a: seq<Item>, b: seq<Item>, scanned: Option<Scanned>)
    ensures Prepend(a, Prepend(b, scanned)) == Prepend(a + b, scanned)
    ensures Prepend([], scanned) == scanned
  {
    if scanned.Some? {
      assert a + (b + scanned.value.items) == a + b + scanned.value.items;
      assert [] + scanned.value.items == scanned.value.items;
    }
  }

  lemma ScanOne(table: Table, item: Item, rest: seq<string>)
    requires Distinct(table) && ItemFits(table, item)
    ensures Scan(table, ItemArgs(table, item) + rest) == Prepend([item], Scan(table, rest))
  {
    var tokens := ItemArgs(table, item) + rest;
    assert Find(table, tokens[0]) == Some(item.index);
    if table[item.index].valued {
      assert tokens[2..] == rest;
    } else {
      assert tokens[1..] == rest;
    }
  }

  /** Scanning encoded options yields exactly those options, then goes on with whatever follows. */
  lemma {:induction false} ScanArgs(table: Table, items: seq<Item>, rest: seq<string>)
    requires Distinct(table) && forall i :: i in items ==> ItemFits(table, i)
    ensures Scan(table, Args(table, items) + rest) == Prepend(items, Scan(table, rest))
    decreases |items|
  {
    if items == [] {
      assert Args(table, items) + rest == rest;
      PrependTwice([], [], Scan(table, rest));
    } else {
      var last, before := items[|items| - 1], items[..|items| - 1];
      var tail := ItemArgs(table, last) + rest;
      assert last in items && forall i :: i in before ==> i in items;
      assert before + [last] == items;
      ArgsAppend(table, before, last);
      Associative(Args(table, before), ItemArgs(table, last), rest);
      ScanArgs(table, before, tail);
      ScanOne(table, last, rest);
      PrependTwice(before, [last], Scan(table, rest));
    }
  }

  /** The values given for option `index`, in order. */
  function Collect(items: seq<Item>, index: nat): seq<string> {
    if items == [] then []
    else
      var last := items[|items| - 1];
      Collect(items[..|items| - 1], index) + (if last.index == index then [last.value] else [])
  }

  lemma CollectAppend(items: seq<Item>, last: Item, index: nat)
    ensures Collect(items + [last], index) == Collect(items, index) + if last.index == index then [last.value] else []
  {
    assert (items + [last])[..|items|] == items;
  }

  lemma {:induction false} CollectUses(items: seq<Item>, i: nat, values: seq<string>, index: nat)
    ensures Collect(items + Uses(i, values), index) ==
            Collect(items, index) + if i == index then values else []
    decreases |values|
  {
    if values == [] {
      assert items + Uses(i, values) == items;
    } else {
      var front, last := values[..|values| - 1], values[|values| - 1];
      CollectUses(items, i, front, index);
      UsesGrow(i, values);
      Associative(items, Uses(i, front), [Item(i, last)]);
      CollectAppend(items + Uses(i, front), Item(i, last), index);
      assert values == front + [last];
    }
  }

  /** With the uses of option `n` added, its values are collected and the others stay. */
  lemma CollectMore(items: seq<Item>, n: nat, values: seq<string>, index: nat)
    requires Collect(items, n) == []
    ensures Collect(items + Uses(n, values), index) == if index == n then values else Collect(items, index)
  {
    CollectUses(items, n, values, index);
    assert [] + values == values && Collect(items, index) + [] == Collect(items, index);
  }

  lemma {:induction false} CollectItems(rows: seq<seq<string>>, index: nat)
    ensures Collect(Items(rows), index) == if index < |rows| then rows[index] else []
    decreases |rows|
  {
    if rows != [] {
      var n := |rows| - 1;
      CollectItems(rows[..n], n);
      CollectItems(rows[..n], index);
      CollectMore(Items(rows[..n]), n, rows[n], index);
    }
  }

  /** The values of every option of the table. */
  function Rows(table: Table, items: seq<Item>): seq<seq<string>> {
    seq(|table|, i requires 0 <= i < |table| => Collect(items, i))
  }

  lemma RowsOfItems(table: Table, rows: seq<seq<string>>)
    requires |rows| == |table|
    ensures Rows(table, Items(rows)) == rows
  {
    forall i | 0 <= i < |rows| ensures Rows(table, Items(rows))[i] == rows[i] {
      CollectItems(rows, i);
    }
  }

  /** The arguments for one option with the given values. */
  function OptionArgs(spec: OptionSpec, values: seq<string>): seq<string> {
    if values == [] then []
    else OptionArgs(spec, values[..|values| - 1]) + UseArgs(spec, values[|values| - 1])
  }

  /** The arguments of the first `n` options, appended one option after the other. */
  function Laid(table: Table, rows: seq<seq<string>>, n: nat): seq<string>
    requires n <= |table| && n <= |rows|
  {
    if n == 0 then [] else Laid(table, rows, n - 1) + OptionArgs(table[n - 1], rows[n - 1])
  }

  /** The arguments of a full set of option values. */
  function Encoded(table: Table, rows: seq<seq<string>>): seq<string>
    requires |rows| == |table|
  {
    Laid(table, rows, |table|)
  }

  lemma {:induction false} ArgsUses(table: Table, items: seq<Item>, n: nat, values: seq<string>)
    requires n < |table|
    ensures Args(table, items + Uses(n, values)) == Args(table, items) + OptionArgs(table[n], values)
    decreases |values|
  {
    if values == [] {
      assert items + Uses(n, values) == items;
    } else {
      var front, last := values[..|values| - 1], values[|values| - 1];
      ArgsUses(table, items, n, front);
      UsesGrow(n, values);
      Associative(items, Uses(n, front), [Item(n, last)]);
      ArgsAppend(table, items + Uses(n, front), Item(n, last));
      Associative(Args(table, items), OptionArgs(table[n], front), UseArgs(table[n], last));
    }
  }

  lemma {:induction false} LaidIsArgs(table: Table, rows: seq<seq<string>>, n: nat)
    requires n <= |table| && n <= |rows|
    ensures Laid(table, rows, n) == Args(table, Items(rows[..n]))
  {
    if n > 0 {
      var r := rows[..n];
      LaidIsArgs(table, rows, n - 1);
      assert r[..|r| - 1] == rows[..n - 1];
      ArgsUses(table, Items(rows[..n - 1]), n - 1, rows[n - 1]);
    }
  }

  /** Only the rows already visited matter. */
  lemma {:induction false} LaidPrefix(t: Table, rows: seq<seq<string>>, other: seq<seq<string>>, n: nat)
    requires n <= |t| && n <= |rows| && n <= |other|
    requires forall i :: 0 <= i < n ==> rows[i] == other[i]
    ensures Laid(t, rows, n) == Laid(t, other, n)
  {
    if n > 0 {
      LaidPrefix(t, rows, other, n - 1);
    }
  }

  /** Scanning an encoded option set and then `rest`: the values come back, `rest` is scanned after them. */
  lemma ScanEncoded(table: Table, rows: seq<seq<string>>, rest: seq<string>)
    requires Distinct(table) && Fits(table, rows)
    ensures Scan(table, Encoded(table, rows) + rest) == Prepend(Items(rows), Scan(table, rest))
    ensures Rows(table, Items(rows)) == rows
  {
    ItemsFit(table, rows);
    LaidIsArgs(table, rows, |table|);
    assert rows[..|table|] == rows;
    ScanArgs(table, Items(rows), rest);
    RowsOfItems(table, rows);
  }
}
