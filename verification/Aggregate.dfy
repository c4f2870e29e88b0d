/** The aggregate stage: grouping records by a composite key and reducing each group. */
module Aggregate {
  import opened Seqs
  import opened Json
  import opened Doubles

  datatype AggregateOp = AggregateOp(field: string, function_: string, output: string)
  datatype CollectArrayOp = CollectArrayOp(output: string, fields: seq<string>)

  datatype AggregateConfig = AggregateConfig(
    groupBy: seq<string>,
    aggregates: seq<AggregateOp>,
    collectArrays: seq<CollectArrayOp>,
    arithmetic: Arithmetic)

  // -- The composite key ---------------------------------------------------------------

  function KeyParts(groupBy: seq<string>, record: Record): seq<string> {
    seq(|groupBy|, i requires 0 <= i < |groupBy| => StringField(record, groupBy[i]))
  }

  function GroupKey(config: AggregateConfig, record: Record): string {
    JoinWith(KeyParts(config.groupBy, record), '|')
  }

  ghost predicate NoBar(parts: seq<string>) {
    forall p :: p in parts ==> '|' !in p
  }

  lemma SplitAtFirst(a: string, b: string, x: string, y: string)
    requires '|' !in a && '|' !in b && a + ['|'] + x == b + ['|'] + y
    ensures a == b && x == y
  {
    var s := a + ['|'] + x;
    assert s == b + ['|'] + y;
    assert (forall i :: 0 <= i < |a| ==> s[i] == a[i]) && (forall i :: 0 <= i < |b| ==> s[i] == b[i]);
    assert s[|a|] == '|' && s[|b|] == '|';
    assert |a| == |b|;
    assert a == s[..|a|] && b == s[..|b|];
    assert x == s[|a| + 1..] && y == s[|b| + 1..];
  }

  /** How many separators a string holds. */
  function Bars(s: string): nat {
    if s == [] then 0 else (if s[0] == '|' then 1 else 0) + Bars(s[1..])
  }

  lemma {:induction false} BarsAdd(a: string, b: string)
    ensures Bars(a + b) == Bars(a) + Bars(b)
  {
    if a == [] {
      assert a + b == b;
    } else {
      assert (a + b)[1..] == a[1..] + b;
      BarsAdd(a[1..], b);
    }
  }

  lemma {:induction false} BarsZero(s: string)
    ensures Bars(s) == 0 <==> '|' !in s
  {
    if s != [] {
      BarsZero(s[1..]);
      assert s == [s[0]] + s[1..];
    }
  }

  /** The key has one separator between parts, plus those inside the parts. */
  lemma {:induction false} BarsOfKey(parts: seq<string>)
    requires parts != []
    ensures Bars(JoinWith(parts, '|')) >= |parts| - 1
    ensures Bars(JoinWith(parts, '|')) == |parts| - 1 <==> NoBar(parts)
  {
    if |parts| == 1 {
      BarsZero(parts[0]);
      assert parts[0] in parts;
    } else {
      BarsOfKey(parts[1..]);
      BarsAdd(parts[0] + ['|'], JoinWith(parts[1..], '|'));
      BarsAdd(parts[0], ['|']);
      BarsZero(parts[0]);
      assert parts == [parts[0]] + parts[1..];
      assert Bars(['|']) == 1;
    }
  }

  lemma {:induction false} JoinInjective(a: seq<string>, b: seq<string>)
    requires |a| == |b| && NoBar(a) && NoBar(b) && JoinWith(a, '|') == JoinWith(b, '|')
    ensures a == b
  {
    if 1 < |a| {
      assert a == [a[0]] + a[1..] && b == [b[0]] + b[1..];
      assert a[0] in a && b[0] in b;
      SplitAtFirst(a[0], b[0], JoinWith(a[1..], '|'), JoinWith(b[1..], '|'));
      JoinInjective(a[1..], b[1..]);
    }
  }

  /** No other tuple of the same width has this tuple's key. */
  ghost predicate Unambiguous(parts: seq<string>) {
    forall other: seq<string> :: |other| == |parts| && JoinWith(other, '|') == JoinWith(parts, '|') ==> other == parts
  }

  /**
   * The composite key identifies a tuple exactly when there is at most one field or no value contains the separator.
   */
  lemma KeyIdentifiesIff(parts: seq<string>)
    ensures Unambiguous(parts) <==> |parts| <= 1 || NoBar(parts)
  {
    if |parts| <= 1 {
      forall other: seq<string> | |other| == |parts| && JoinWith(other, '|') == JoinWith(parts, '|')
        ensures other == parts
      {
      }
    } else if NoBar(parts) {
      forall other: seq<string> | |other| == |parts| && JoinWith(other, '|') == JoinWith(parts, '|')
        ensures other == parts
      {
        BarsOfKey(other);
        BarsOfKey(parts);
        JoinInjective(other, parts);
      }
    } else {
      var other := Collision(parts);
    }
  }

  lemma FirstBar(s: string) returns (i: nat)
    requires '|' in s
    ensures i < |s| && s == s[..i] + ['|'] + s[i + 1..]
  {
    i :| 0 <= i < |s| && s[i] == '|';
  }

  /** Moving a separator across a field boundary gives another tuple with the same key. */
  lemma {:induction false} Collision(parts: seq<string>) returns (other: seq<string>)
    requires 1 < |parts| && !NoBar(parts)
    ensures |other| == |parts| && other != parts && JoinWith(other, '|') == JoinWith(parts, '|')
  {
    var first, rest := parts[0], parts[1..];
    assert parts == [first] + rest;
    if '|' in first {
      var i := FirstBar(first);
      other := [first[..i], first[i + 1..] + ['|'] + rest[0]] + rest[1..];
      ShiftLeft(first, i, rest);
      assert |other[0]| < |parts[0]|;
    } else if |rest| == 1 {
      var i := FirstBar(rest[0]);
      other := [first + ['|'] + rest[0][..i], rest[0][i + 1..]];
      assert JoinWith(parts, '|') == first + ['|'] + rest[0] by {
        assert JoinWith(rest, '|') == rest[0];
      }
      assert other[1..] == [other[1]];
      assert JoinWith(other, '|') == other[0] + ['|'] + other[1];
      assert first + ['|'] + rest[0] == other[0] + ['|'] + other[1];
      assert |other[0]| > |parts[0]|;
    } else {
      var inner := Collision(rest);
      other := [first] + inner;
      assert other[1..] == inner;
    }
  }

  lemma JoinCons(p: string, rest: seq<string>)
    requires rest != []
    ensures JoinWith([p] + rest, '|') == p + ['|'] + JoinWith(rest, '|')
  {
    assert ([p] + rest)[1..] == rest;
  }

  lemma HeadSplit(x: string, y: string, rest: seq<string>)
    ensures JoinWith([x + y] + rest, '|') == x + JoinWith([y] + rest, '|')
  {
    if rest == [] {
      assert [x + y] + rest == [x + y] && [y] + rest == [y];
    } else {
      JoinCons(x + y, rest);
      JoinCons(y, rest);
      Associate(x, y, ['|'] + JoinWith(rest, '|'));
      assert x + y + ['|'] + JoinWith(rest, '|') == (x + y) + (['|'] + JoinWith(rest, '|'));
      assert y + ['|'] + JoinWith(rest, '|') == y + (['|'] + JoinWith(rest, '|'));
    }
  }

  lemma Associate(x: string, y: string, z: string)
    ensures (x + y) + z == x + (y + z)
  {
  }

  lemma ShiftLeft(first: string, i: nat, rest: seq<string>)
    requires i < |first| && first == first[..i] + ['|'] + first[i + 1..] && rest != []
    ensures var other := [first[..i], first[i + 1..] + ['|'] + rest[0]] + rest[1..];
            JoinWith(other, '|') == JoinWith([first] + rest, '|')
  {
    var before, after, key := first[..i], first[i + 1..] + ['|'], JoinWith(rest, '|');
    var other := [before, after + rest[0]] + rest[1..];
    assert other == [before] + ([after + rest[0]] + rest[1..]);
    JoinCons(before, [after + rest[0]] + rest[1..]);
    HeadSplit(after, rest[0], rest[1..]);
    assert [rest[0]] + rest[1..] == rest;
    JoinCons(first, rest);
    Associate(before + ['|'], after, key);
    Associate(before + ['|'], first[i + 1..], ['|']);
  }
}
