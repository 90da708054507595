/** Strings as the Go standard library treats them: splitting, joining, searching and decimal printing. */
module Text {

  /** `strings.Join`. */
  function Join(parts: seq<string>, sep: string): string {
    if |parts| == 0 then ""
    else if |parts| == 1 then parts[0]
    else parts[0] + sep + Join(parts[1..], sep)
  }

  /** `strings.Split` (and `strings.SplitSeq`) on a one-character separator. */
  function Split(s: string, sep: char): (parts: seq<string>)
    ensures |parts| > 0
  {
    if s == "" then [""]
    else if s[0] == sep then [""] + Split(s[1..], sep)
    else var rest := Split(s[1..], sep); [[s[0]] + rest[0]] + rest[1..]
  }

  /** Position of the first `c` in `s`, or `|s|` when there is none. */
  function IndexOf(s: string, c: char): (i: nat)
    ensures i <= |s| && c !in s[..i]
    ensures i < |s| ==> s[i] == c
  {
    if s == "" || s[0] == c then 0 else IndexOf(s[1..], c) + 1
  }

  lemma IndexAfterPrefix(p: string, c: char, rest: string)
    requires c !in p
    ensures IndexOf(p + [c] + rest, c) == |p|
  {
    var s := p + [c] + rest;
    var i := IndexOf(s, c);
    assert s[|p|] == c;
    assert forall k :: 0 <= k < |p| ==> s[k] == p[k];
    assert forall k :: 0 <= k < i ==> s[..i][k] == s[k];
  }

  /** `s` with every occurrence of `c` removed. */
  function Without(s: string, c: char): string {
    if s == "" then ""
    else if s[0] == c then Without(s[1..], c)
    else [s[0]] + Without(s[1..], c)
  }

  /** All the parts one after the other. */
  function Flatten(parts: seq<string>): string {
    if parts == [] then "" else parts[0] + Flatten(parts[1..])
  }

  /** `strings.Contains`. */
  predicate Contains(s: string, sub: string) {
    exists i :: 0 <= i <= |s| && ContainsAt(s, sub, i)
  }

  predicate ContainsAt(s: string, sub: string, i: int) {
    0 <= i <= |s| - |sub| && s[i..i + |sub|] == sub
  }

  /** No piece produced by a split holds the separator. */
  lemma {:induction false} SplitPiecesFree(s: string, sep: char)
    ensures forall p :: p in Split(s, sep) ==> sep !in p
  {
    if s != "" {
      SplitPiecesFree(s[1..], sep);
      var rest := Split(s[1..], sep);
      assert rest[0] in rest;
      forall p | p in Split(s, sep) ensures sep !in p {
        if s[0] != sep && p != [s[0]] + rest[0] {
          assert p in rest[1..];
        }
      }
    }
  }

  lemma {:induction false} JoinConcat(a: seq<string>, b: seq<string>, sep: string)
    requires a != [] && b != []
    ensures Join(a + b, sep) == Join(a, sep) + sep + Join(b, sep)
  {
    if |a| == 1 {
      assert (a + b)[1..] == b;
    } else {
      JoinConcat(a[1..], b, sep);
      assert (a + b)[1..] == a[1..] + b;
      assert (a + b)[0] == a[0];
    }
  }

  /** Joining what a split produced gives the string back. */
  lemma {:induction false} JoinSplit(s: string, sep: char)
    ensures Join(Split(s, sep), [sep]) == s
  {
    if s != "" {
      JoinSplit(s[1..], sep);
      var rest := Split(s[1..], sep);
      assert s == [s[0]] + s[1..];
      if s[0] == sep {
        JoinConcat([""], rest, [sep]);
        calc {
          Join([""] + rest, [sep]);
          "" + [sep] + s[1..];
          s;
        }
      } else if |rest| == 1 {
      } else {
        assert rest == [rest[0]] + rest[1..];
        assert ([[s[0]] + rest[0]] + rest[1..])[1..] == rest[1..];
      }
    }
  }

  lemma {:induction false} SplitPrefix(p: string, s: string, sep: char)
    requires sep !in p
    ensures Split(p + [sep] + s, sep) == [p] + Split(s, sep)
    ensures Split(p, sep) == [p]
  {
    if p == "" {
      assert p + [sep] + s == [sep] + s;
    } else {
      SplitPrefix(p[1..], s, sep);
      assert p == [p[0]] + p[1..];
      assert (p + [sep] + s)[1..] == p[1..] + [sep] + s;
    }
  }

  /** A split undoes a join exactly for non-empty lists of separator-free parts. */
  lemma {:induction false} SplitJoinExact(parts: seq<string>, sep: char)
    ensures Split(Join(parts, [sep]), sep) == parts <==>
            parts != [] && forall p :: p in parts ==> sep !in p
  {
    if parts != [] && forall p :: p in parts ==> sep !in p {
      SplitJoin(parts, sep);
    }
    SplitPiecesFree(Join(parts, [sep]), sep);
  }

  lemma {:induction false} SplitJoin(parts: seq<string>, sep: char)
    requires parts != [] && forall p :: p in parts ==> sep !in p
    ensures Split(Join(parts, [sep]), sep) == parts
  {
    assert parts[0] in parts;
    if |parts| == 1 {
      SplitPrefix(parts[0], "", sep);
    } else {
      SplitJoin(parts[1..], sep);
      SplitPrefix(parts[0], Join(parts[1..], [sep]), sep);
    }
  }

  lemma {:induction false} WithoutConcat(a: string, b: string, c: char)
    ensures Without(a + b, c) == Without(a, c) + Without(b, c)
  {
    if a == "" {
      assert a + b == b;
    } else {
      assert (a + b)[1..] == a[1..] + b;
      WithoutConcat(a[1..], b, c);
    }
  }

  lemma {:induction false} FlattenConcat(a: seq<string>, b: seq<string>)
    ensures Flatten(a + b) == Flatten(a) + Flatten(b)
  {
    if a == [] {
      assert a + b == b;
    } else {
      assert (a + b)[1..] == a[1..] + b;
      FlattenConcat(a[1..], b);
    }
  }

  /** The pieces of a split, one after the other, are the string without its separators. */
  lemma {:induction false} FlattenSplit(s: string, sep: char)
    ensures Flatten(Split(s, sep)) == Without(s, sep)
  {
    if s != "" {
      FlattenSplit(s[1..], sep);
      var rest := Split(s[1..], sep);
      if s[0] == sep {
        assert ([""] + rest)[1..] == rest;
      } else {
        assert ([[s[0]] + rest[0]] + rest[1..])[1..] == rest[1..];
      }
    }
  }

  lemma {:induction false} JoinEmptySeparator(parts: seq<string>)
    ensures Join(parts, "") == Flatten(parts)
  {
    if |parts| > 1 {
      JoinEmptySeparator(parts[1..]);
    } else if |parts| == 1 {
      assert Flatten(parts[1..]) == "";
    }
  }

  lemma ContainsConcat(a: string, b: string, sub: string)
    requires Contains(a, sub) || Contains(b, sub)
    ensures Contains(a + b, sub)
  {
    var s := a + b;
    if Contains(a, sub) {
      var i :| 0 <= i <= |a| && ContainsAt(a, sub, i);
      assert s[i..i + |sub|] == a[i..i + |sub|];
      assert ContainsAt(s, sub, i);
    } else {
      var i :| 0 <= i <= |b| && ContainsAt(b, sub, i);
      var k := i + |a|;
      assert s[k..k + |sub|] == b[i..i + |sub|];
      assert ContainsAt(s, sub, k);
    }
  }

  /** An occurrence cannot cover a character it does not hold. */
  lemma OccurrenceAside(a: string, b: string, c: char, sub: string, i: nat)
    requires c !in sub && sub != "" && ContainsAt(a + [c] + b, sub, i)
    ensures Contains(a, sub) || Contains(b, sub)
  {
    var s := a + [c] + b;
    assert s[|a|] == c;
    assert forall k :: i <= k < i + |sub| ==> s[k] == s[i..i + |sub|][k - i];
    if i + |sub| <= |a| {
      assert a[i..i + |sub|] == s[i..i + |sub|];
      assert ContainsAt(a, sub, i);
    } else {
      assert i > |a|;
      var k := i - |a| - 1;
      assert b[k..k + |sub|] == s[i..i + |sub|];
      assert ContainsAt(b, sub, k);
    }
  }

  lemma ContainsParts(a: string, b: string, c: char, sub: string)
    requires c !in sub && sub != ""
    ensures Contains(a + [c] + b, sub) <==> Contains(a, sub) || Contains(b, sub)
  {
    var s := a + [c] + b;
    if Contains(s, sub) {
      var i :| 0 <= i <= |s| && ContainsAt(s, sub, i);
      OccurrenceAside(a, b, c, sub, i);
    }
    if Contains(a, sub) {
      ContainsConcat(a, [c] + b, sub);
      assert a + ([c] + b) == s;
    }
    if Contains(b, sub) {
      ContainsConcat(a + [c], b, sub);
    }
  }

  /** A phrase without the separator occurs in a join exactly when it occurs inside one of the parts. */
  lemma {:induction false} ContainsJoin(parts: seq<string>, c: char, sub: string)
    requires c !in sub && sub != ""
    ensures Contains(Join(parts, [c]), sub) <==> exists p :: p in parts && Contains(p, sub)
  {
    if |parts| == 0 {
    } else if |parts| == 1 {
      assert parts[0] in parts;
    } else {
      ContainsJoin(parts[1..], c, sub);
      ContainsParts(parts[0], Join(parts[1..], [c]), c, sub);
      assert forall p :: p in parts <==> p == parts[0] || p in parts[1..];
    }
  }

  /** `fmt.Sprint` of a non-negative integer. */
  function Decimal(n: nat): (s: string)
    ensures s != ""
  {
    if n < 10 then [Digit(n)] else Decimal(n / 10) + [Digit(n % 10)]
  }

  function Digit(d: nat): char
    requires d < 10
  {
    '0' + d as char
  }

  function ParseDecimal(s: string): (n: nat) {
    if s == "" then 0
    else
      var c := s[|s| - 1];
      10 * ParseDecimal(s[..|s| - 1]) + (if '0' <= c <= '9' then (c - '0') as nat else 0)
  }

  /** Only decimal digits, and no leading zero unless it is the whole number. */
  ghost predicate Numeral(s: string) {
    s != "" && (forall i :: 0 <= i < |s| ==> '0' <= s[i] <= '9') && (s[0] == '0' ==> |s| == 1)
  }

  /** Printed numbers are proper numerals, and reading one back gives the number. */
  lemma {:induction false} ParseDecimalRoundTrip(n: nat)
    ensures ParseDecimal(Decimal(n)) == n
    ensures Numeral(Decimal(n)) && (n > 0 ==> Decimal(n)[0] != '0')
  {
    if n < 10 {
      assert [Digit(n)][..0] == "";
    } else {
      ParseDecimalRoundTrip(n / 10);
      var s := Decimal(n);
      assert s[..|s| - 1] == Decimal(n / 10);
    }
  }
}
