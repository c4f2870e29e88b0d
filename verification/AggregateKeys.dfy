/** When the composite key of a record tells its group-by values. */
module AggregateKeys {
  import opened Seqs
  import opened Ids
  import opened Json
  import opened Items
  import opened Aggregate
  import opened AggregateGroups
  import opened AggregateProperties

  predicate SameField(a: Record, b: Record, f: string) {
    (f in a <==> f in b) && (f in a ==> a[f] == b[f])
  }

  ghost predicate SameFields(a: Record, b: Record, fields: seq<string>) {
    forall k :: 0 <= k < |fields| ==> SameField(a, b, fields[k])
  }

  /** Every record with this record's key has its group-by values. */
  ghost predicate KeyDetermines(config: AggregateConfig, record: Record) {
    forall other :: GroupKey(config, other) == GroupKey(config, record) ==> SameFields(other, record, config.groupBy)
  }

  predicate AllText(record: Record, fields: seq<string>) {
    forall k :: 0 <= k < |fields| ==> HasText(record, fields[k])
  }

  lemma PartsAt(fields: seq<string>, record: Record, k: nat)
    requires k < |fields|
    ensures KeyParts(fields, record)[k] == StringField(record, fields[k])
  {
  }

  /** Equal string projections are equal values where one of them is a non-empty string. */
  lemma TextTells(a: Record, b: Record, f: string)
    requires HasText(b, f) && StringField(a, f) == StringField(b, f)
    ensures SameField(a, b, f)
  {
  }

  /** Another record with the same key, given a group-by field without text. */
  function Retold(record: Record, f: string): Record {
    if f in record && record[f] == Str("") then record - {f} else record[f := Str("")]
  }

  lemma RetoldCollides(config: AggregateConfig, record: Record, k: nat)
    requires k < |config.groupBy| && !HasText(record, config.groupBy[k])
    ensures GroupKey(config, Retold(record, config.groupBy[k])) == GroupKey(config, record)
    ensures !SameField(Retold(record, config.groupBy[k]), record, config.groupBy[k])
  {
    var other := Retold(record, config.groupBy[k]);
    forall j | 0 <= j < |config.groupBy|
      ensures StringField(other, config.groupBy[j]) == StringField(record, config.groupBy[j])
    {
    }
    assert KeyParts(config.groupBy, other) == KeyParts(config.groupBy, record);
  }

  /** The record that holds these texts under these fields. */
  function Told(fields: seq<string>, parts: seq<string>): Record
    requires |fields| == |parts|
  {
    if fields == [] then map[]
    else
      var n := |fields| - 1;
      Told(fields[..n], parts[..n])[fields[n] := Str(parts[n])]
  }

  lemma {:induction false} ToldAt(fields: seq<string>, parts: seq<string>, k: nat)
    requires |fields| == |parts| && Distinct(fields) && k < |fields|
    ensures fields[k] in Told(fields, parts) && Told(fields, parts)[fields[k]] == Str(parts[k])
  {
    if k < |fields| - 1 {
      ToldAt(fields[..|fields| - 1], parts[..|fields| - 1], k);
    }
  }

  lemma ToldKey(fields: seq<string>, parts: seq<string>)
    requires |fields| == |parts| && Distinct(fields)
    ensures KeyParts(fields, Told(fields, parts)) == parts
  {
    forall k | 0 <= k < |fields| ensures KeyParts(fields, Told(fields, parts))[k] == parts[k] {
      ToldAt(fields, parts, k);
    }
  }

  /** Texts with a separator are shared by another record whose fields differ. */
  lemma SeparatorCollides(config: AggregateConfig, record: Record) returns (other: Record)
    requires Distinct(config.groupBy) && 1 < |config.groupBy| && !NoBar(KeyParts(config.groupBy, record))
    ensures GroupKey(config, other) == GroupKey(config, record) && !SameFields(other, record, config.groupBy)
  {
    var parts := KeyParts(config.groupBy, record);
    var shifted := Collision(parts);
    other := Told(config.groupBy, shifted);
    ToldKey(config.groupBy, shifted);
    SameFieldsSameParts(other, record, config.groupBy);
  }

  lemma SameFieldsSameParts(a: Record, b: Record, fields: seq<string>)
    ensures SameFields(a, b, fields) ==> KeyParts(fields, a) == KeyParts(fields, b)
  {
    if SameFields(a, b, fields) {
      forall k | 0 <= k < |fields| ensures KeyParts(fields, a)[k] == KeyParts(fields, b)[k] {
        assert SameField(a, b, fields[k]);
      }
    }
  }

  lemma TextDetermines(config: AggregateConfig, record: Record)
    requires AllText(record, config.groupBy)
    requires |config.groupBy| <= 1 || NoBar(KeyParts(config.groupBy, record))
    ensures KeyDetermines(config, record)
  {
    var parts := KeyParts(config.groupBy, record);
    KeyIdentifiesIff(parts);
    forall other | GroupKey(config, other) == GroupKey(config, record)
      ensures SameFields(other, record, config.groupBy)
    {
      assert KeyParts(config.groupBy, other) == parts;
      forall k | 0 <= k < |config.groupBy| ensures SameField(other, record, config.groupBy[k]) {
        PartsAt(config.groupBy, other, k);
        PartsAt(config.groupBy, record, k);
        TextTells(other, record, config.groupBy[k]);
      }
    }
  }

  /** One field, however often it is listed. */
  predicate OneField(fields: seq<string>) {
    forall k :: 0 <= k < |fields| ==> fields[k] == fields[0]
  }

  lemma {:induction false} LongerJoins(a: seq<string>, b: seq<string>)
    requires |a| == |b| > 0 && forall k :: 0 <= k < |a| ==> |a[k]| < |b[k]|
    ensures |JoinWith(a, '|')| < |JoinWith(b, '|')|
  {
    if 1 < |a| {
      LongerJoins(a[1..], b[1..]);
    }
  }

  lemma StartsJoined(parts: seq<string>)
    requires parts != []
    ensures parts[0] <= JoinWith(parts, '|')
  {
  }

  /** A value joined with copies of itself can be told from the result. */
  lemma CopiesTell(a: seq<string>, b: seq<string>)
    requires |a| == |b| > 0 && OneField(a) && OneField(b) && JoinWith(a, '|') == JoinWith(b, '|')
    ensures a[0] == b[0]
  {
    if |a[0]| < |b[0]| {
      LongerJoins(a, b);
    } else if |b[0]| < |a[0]| {
      LongerJoins(b, a);
    }
    StartsJoined(a);
    StartsJoined(b);
    assert a[0] == JoinWith(a, '|')[..|a[0]|] && b[0] == JoinWith(b, '|')[..|b[0]|];
  }

  lemma OneFieldDetermines(config: AggregateConfig, record: Record)
    requires OneField(config.groupBy) && AllText(record, config.groupBy)
    ensures KeyDetermines(config, record)
  {
    forall other | GroupKey(config, other) == GroupKey(config, record)
      ensures SameFields(other, record, config.groupBy)
    {
      if config.groupBy != [] {
        CopiesTell(KeyParts(config.groupBy, other), KeyParts(config.groupBy, record));
        TextTells(other, record, config.groupBy[0]);
      }
    }
  }

  /**
   * A record's key tells its group-by values, among all records, exactly when each of them is a non-empty string and
   * there is only one field or none of them contains the separator.
   */
  lemma KeyDeterminesIff(config: AggregateConfig, record: Record)
    requires Distinct(config.groupBy) || OneField(config.groupBy)
    ensures KeyDetermines(config, record) <==>
            AllText(record, config.groupBy)
            && (OneField(config.groupBy) || NoBar(KeyParts(config.groupBy, record)))
  {
    if !AllText(record, config.groupBy) {
      var k :| 0 <= k < |config.groupBy| && !HasText(record, config.groupBy[k]);
      RetoldCollides(config, record, k);
      assert !SameFields(Retold(record, config.groupBy[k]), record, config.groupBy);
    } else if OneField(config.groupBy) {
      OneFieldDetermines(config, record);
    } else if !NoBar(KeyParts(config.groupBy, record)) {
      var other := SeparatorCollides(config, record);
    } else {
      TextDetermines(config, record);
    }
  }

  /** Numbers all share the empty key: two items that differ only in a numeric group-by field fall into one group. */
  lemma NumbersCollide(config: AggregateConfig, f: string, x: Number, y: Number, first: PipelineItem,
                       second: PipelineItem)
    requires config.groupBy == [f] && first.record == Some(map[f := Num(x)]) && second.record == Some(map[f := Num(y)])
    requires LastArray(config.collectArrays, f).None? && LastAggregate(config.aggregates, f).None?
    ensures KeyOf(config, first) == "" == KeyOf(config, second)
    ensures Group(config, [first, second], "") == [first, second]
    ensures var out := GroupOutput(config, "", [first, second]);
            out.record.Some? && f in out.record.value && out.record.value[f] == Num(x)
  {
    assert KeyParts([f], map[f := Num(x)]) == [""] && KeyParts([f], map[f := Num(y)]) == [""];
    assert [first, second][..1] == [first] && [first][..0] == [];
    assert Group(config, [first], "") == [first];
    OutputField(config, "", [first, second], f);
  }

  /**
   * When an item's key tells its group-by values, its group's output carries the item's own values, unless an aggregate
   * or array is written there.
   */
  lemma GroupFieldIsShared(config: AggregateConfig, items: seq<PipelineItem>, item: PipelineItem, k: nat)
    requires item in items && item.record.Some? && AllHaveRecords(items) && KeyDetermines(config, item.record.value)
    requires k < |config.groupBy|
    requires LastArray(config.collectArrays, config.groupBy[k]).None? &&
             LastAggregate(config.aggregates, config.groupBy[k]).None?
    ensures var group := Group(config, items, KeyOf(config, item));
            group != [] && GroupOutput(config, KeyOf(config, item), group).record.Some?
            && SameField(GroupOutput(config, KeyOf(config, item), group).record.value, item.record.value,
                         config.groupBy[k])
  {
    var key, f := KeyOf(config, item), config.groupBy[k];
    var group := Group(config, items, key);
    GroupMembers(config, items, key, item);
    assert group != [];
    var first := group[0];
    assert first in group;
    GroupMembers(config, items, key, first);
    assert first.record.Some? by {
      var i :| 0 <= i < |items| && items[i] == first;
    }
    assert SameFields(first.record.value, item.record.value, config.groupBy);
    assert SameField(first.record.value, item.record.value, f);
    OutputField(config, key, group, f);
  }
}
