/** Grouping, reducing and collecting: the batch operation of the aggregate stage. */
module AggregateGroups {
  import opened Seqs
  import opened Order
  import opened Ids
  import opened Json
  import opened Doubles
  import opened Items
  import opened Aggregate

  // -- Aggregate functions ------------------------------------------------------------------

  function AsNumber(config: AggregateConfig, v: Value): Option<Double> {
    match v
    case Num(Integer(i)) => Some(Finite(config.arithmetic.toF64(i)))
    case Num(Float(r)) => Some(Finite(r))
    case Str(s) => config.arithmetic.parse(s)
    case _ => None
  }

  /** The numeric values of a field, in record order. */
  function Numbers(config: AggregateConfig, records: seq<Record>, field: string): seq<Double> {
    if records == [] then []
    else
      var rest, last := Numbers(config, records[..|records| - 1], field), records[|records| - 1];
      if field in last && AsNumber(config, last[field]).Some? then rest + [AsNumber(config, last[field]).value]
      else rest
  }

  function SumOf(m: Arithmetic, values: seq<Double>): Double {
    if values == [] then Finite(0.0) else m.add(SumOf(m, values[..|values| - 1]), values[|values| - 1])
  }

  function MaxOf(values: seq<Double>): Double
    requires values != []
  {
    if |values| == 1 then values[0] else Larger(MaxOf(values[..|values| - 1]), values[|values| - 1])
  }

  function MinOf(values: seq<Double>): Double
    requires values != []
  {
    if |values| == 1 then values[0] else Smaller(MinOf(values[..|values| - 1]), values[|values| - 1])
  }

  predicate AllNaN(values: seq<Double>) {
    forall x :: x in values ==> x.NotANumber?
  }

  lemma {:induction false} GreatestIsAttained(values: seq<Double>)
    requires values != []
    ensures MaxOf(values) in values && (MaxOf(values).NotANumber? <==> AllNaN(values))
    ensures forall x :: x in values ==> !Below(MaxOf(values), x)
  {
    if 1 < |values| {
      var init, last := values[..|values| - 1], values[|values| - 1];
      GreatestIsAttained(init);
      assert values == init + [last];
    } else {
      assert values[0] in values;
    }
  }

  lemma {:induction false} LeastIsAttained(values: seq<Double>)
    requires values != []
    ensures MinOf(values) in values && (MinOf(values).NotANumber? <==> AllNaN(values))
    ensures forall x :: x in values ==> !Below(x, MinOf(values))
  {
    if 1 < |values| {
      var init, last := values[..|values| - 1], values[|values| - 1];
      LeastIsAttained(init);
      assert values == init + [last];
    } else {
      assert values[0] in values;
    }
  }

  function FieldOrNull(record: Record, field: string): Value {
    if field in record then record[field] else Null
  }

  function ComputeAggregate(config: AggregateConfig, name: string, field: string, records: seq<Record>): Value {
    var values := Numbers(config, records, field);
    if name == "sum" then ToValue(SumOf(config.arithmetic, values))
    else if name == "max" then if values == [] then Null else ToValue(MaxOf(values))
    else if name == "min" then if values == [] then Null else ToValue(MinOf(values))
    else if name == "avg" then
      if values == [] then Null else ToValue(config.arithmetic.divide(SumOf(config.arithmetic, values), |values|))
    else if name == "count" then Num(Integer(|values|))
    else if name == "first" then if records == [] then Null else FieldOrNull(records[0], field)
    else if name == "last" then if records == [] then Null else FieldOrNull(records[|records| - 1], field)
    else Null
  }

  // -- Groups ------------------------------------------------------------------------------

  ghost predicate AllHaveRecords(items: seq<PipelineItem>) {
    forall i :: 0 <= i < |items| ==> items[i].record.Some?
  }

  function KeyOf(config: AggregateConfig, item: PipelineItem): string {
    if item.record.Some? then GroupKey(config, item.record.value) else ""
  }

  /** The items with a key, in input order. */
  function Group(config: AggregateConfig, items: seq<PipelineItem>, key: string): seq<PipelineItem> {
    if items == [] then []
    else
      var rest, last := Group(config, items[..|items| - 1], key), items[|items| - 1];
      if KeyOf(config, last) == key then rest + [last] else rest
  }

  function Keys(config: AggregateConfig, items: seq<PipelineItem>): set<string> {
    set item <- items :: KeyOf(config, item)
  }

  lemma {:induction false} GroupMembers(config: AggregateConfig, items: seq<PipelineItem>, key: string, x: PipelineItem)
    ensures x in Group(config, items, key) <==> x in items && KeyOf(config, x) == key
  {
    if items != [] {
      GroupMembers(config, items[..|items| - 1], key, x);
      assert items == items[..|items| - 1] + [items[|items| - 1]];
    }
  }

  lemma KeysHaveGroups(config: AggregateConfig, items: seq<PipelineItem>, key: string)
    ensures key in Keys(config, items) <==> Group(config, items, key) != []
    ensures AllHaveRecords(items) ==> AllHaveRecords(Group(config, items, key))
  {
    var group := Group(config, items, key);
    if key in Keys(config, items) {
      var x :| x in items && KeyOf(config, x) == key;
      GroupMembers(config, items, key, x);
    }
    if group != [] {
      GroupMembers(config, items, key, group[0]);
      assert group[0] in group;
    }
    if AllHaveRecords(items) {
      forall i | 0 <= i < |group| ensures group[i].record.Some? {
        GroupMembers(config, items, key, group[i]);
        assert group[i] in group;
      }
    }
  }

  // -- One group's output --------------------------------------------------------------------

  function Records(items: seq<PipelineItem>): seq<Record> {
    seq(|items|, i requires 0 <= i < |items| => if items[i].record.Some? then items[i].record.value else map[])
  }

  function CopyFields(out: Record, from: Record, fields: seq<string>): Record {
    if fields == [] then out
    else
      var rest, last := CopyFields(out, from, fields[..|fields| - 1]), fields[|fields| - 1];
      if last in from then rest[last := from[last]] else rest
  }

  function AddAggregates(config: AggregateConfig, out: Record, records: seq<Record>, ops: seq<AggregateOp>): Record {
    if ops == [] then out
    else
      var last := ops[|ops| - 1];
      AddAggregates(config, out, records, ops[..|ops| - 1])
        [last.output := ComputeAggregate(config, last.function_, last.field, records)]
  }

  function Projected(records: seq<Record>, fields: seq<string>): seq<Value> {
    seq(|records|, i requires 0 <= i < |records| => Object(CopyFields(map[], records[i], fields)))
  }

  function AddArrays(out: Record, records: seq<Record>, ops: seq<CollectArrayOp>): Record {
    if ops == [] then out
    else
      var last := ops[|ops| - 1];
      AddArrays(out, records, ops[..|ops| - 1])[last.output := Array(Projected(records, last.fields))]
  }

  function GroupOutput(config: AggregateConfig, key: string, group: seq<PipelineItem>): PipelineItem
    requires group != []
  {
    var records := Records(group);
    var copied := CopyFields(map[], records[0], config.groupBy);
    var reduced := AddAggregates(config, copied, records, config.aggregates);
    group[0].(id := group[0].id + ":agg:" + key, record := Some(AddArrays(reduced, records, config.collectArrays)))
  }

  // -- The batch operation ----------------------------------------------------------------------

  type Groups = map<string, seq<PipelineItem>>

  /** One group per key, with its items in input order. */
  ghost predicate IsGrouping(config: AggregateConfig, items: seq<PipelineItem>, groups: Groups) {
    && groups.Keys == Keys(config, items)
    && forall key :: key in groups ==> groups[key] == Group(config, items, key)
  }

  lemma KeysPush(config: AggregateConfig, items: seq<PipelineItem>, item: PipelineItem)
    ensures Keys(config, items + [item]) == Keys(config, items) + {KeyOf(config, item)}
  {
  }

  lemma GroupPush(config: AggregateConfig, items: seq<PipelineItem>, item: PipelineItem, key: string)
    ensures Group(config, items + [item], key) ==
            if KeyOf(config, item) == key then Group(config, items, key) + [item] else Group(config, items, key)
  {
    assert (items + [item])[..|items|] == items;
  }

  lemma AddToGroup(config: AggregateConfig, items: seq<PipelineItem>, groups: Groups, item: PipelineItem)
    requires IsGrouping(config, items, groups)
    ensures var key := KeyOf(config, item);
            IsGrouping(config, items + [item], groups[key := (if key in groups then groups[key] else []) + [item]])
  {
    var key := KeyOf(config, item);
    KeysPush(config, items, item);
    KeysHaveGroups(config, items, key);
    forall k | k in Keys(config, items) || k == key
      ensures Group(config, items + [item], k) ==
              if k == key then (if key in groups then groups[key] else []) + [item] else groups[k]
    {
      GroupPush(config, items, item, k);
    }
  }

  /** One output per key, in order: its non-empty group, reduced. */
  ghost predicate GroupsReduced(config: AggregateConfig, items: seq<PipelineItem>, keys: seq<string>,
                                results: seq<PipelineItem>)
  {
    && |results| == |keys|
    && forall i :: 0 <= i < |keys| ==> IsReduced(config, keys[i], Group(config, items, keys[i]), results[i])
  }

  ghost predicate IsReduced(config: AggregateConfig, key: string, group: seq<PipelineItem>, output: PipelineItem) {
    group != [] && output == GroupOutput(config, key, group)
  }

  lemma OneMoreReduced(config: AggregateConfig, items: seq<PipelineItem>, keys: seq<string>, i: nat,
                       results: seq<PipelineItem>)
    requires i < |keys| && GroupsReduced(config, items, keys[..i], results) && Group(config, items, keys[i]) != []
    ensures GroupsReduced(config, items, keys[..i + 1],
                          results + [GroupOutput(config, keys[i], Group(config, items, keys[i]))])
  {
  }

  /** The first item without a record. */
  ghost predicate FirstWithoutRecord(items: seq<PipelineItem>, k: nat) {
    k < |items| && items[k].record.None? && AllHaveRecords(items[..k])
  }

  method ProcessBatch(config: AggregateConfig, items: seq<PipelineItem>) returns (r: ItemResult)
    ensures r.Ok? <==> AllHaveRecords(items)
    ensures r.Err? ==>
            exists k: nat :: FirstWithoutRecord(items, k) && r.error == StageError(items[k].id, "item has no record")
    ensures r.Ok? ==> GroupsReduced(config, items, KeyOrder(Keys(config, items)), r.value)
  {
    var groups: Groups := map[];
    for k := 0 to |items|
      invariant AllHaveRecords(items[..k]) && IsGrouping(config, items[..k], groups)
    {
      if items[k].record.None? {
        assert FirstWithoutRecord(items, k);
        return Err(StageError(items[k].id, "item has no record"));
      }
      var key := KeyOf(config, items[k]);
      AddToGroup(config, items[..k], groups, items[k]);
      assert items[..k + 1] == items[..k] + [items[k]];
      groups := groups[key := (if key in groups then groups[key] else []) + [items[k]]];
    }
    assert items[..|items|] == items;
    var results := ReduceGroups(config, items, groups);
    return Ok(results);
  }

  /** The outputs, group by group in key order. */
  method ReduceGroups(config: AggregateConfig, ghost items: seq<PipelineItem>, groups: Groups)
    returns (results: seq<PipelineItem>)
    requires IsGrouping(config, items, groups)
    ensures GroupsReduced(config, items, KeyOrder(Keys(config, items)), results)
  {
    results := [];
    var keys := InKeyOrder(groups.Keys);
    for i := 0 to |keys|
      invariant GroupsReduced(config, items, keys[..i], results)
    {
      assert keys[i] in Elements(keys);
      KeysHaveGroups(config, items, keys[i]);
      OneMoreReduced(config, items, keys, i, results);
      results := results + [GroupOutput(config, keys[i], groups[keys[i]])];
    }
    assert keys[..|keys|] == keys;
  }

  // -- Grouping is a partition ---------------------------------------------------------------------

  /** What a group contributes, given what each item contributes. */
  function GroupBag<T>(config: AggregateConfig, items: seq<PipelineItem>,
                       f: PipelineItem -> multiset<T>): string -> multiset<T> {
    (key: string) => Sum(Group(config, items, key), f)
  }

  lemma {:induction false} SumOfNothing<T>(keys: seq<string>, g: string -> multiset<T>)
    requires forall k :: k in keys ==> g(k) == multiset{}
    ensures Sum(keys, g) == multiset{}
  {
    if keys != [] {
      SumOfNothing(keys[..|keys| - 1], g);
    }
  }

  lemma {:induction false} SumWithOneMore<T>(keys: seq<string>, g: string -> multiset<T>, h: string -> multiset<T>,
                                             key: string, more: multiset<T>)
    requires Distinct(keys) && forall k :: h(k) == if k == key then g(k) + more else g(k)
    ensures Sum(keys, h) == if key in keys then Sum(keys, g) + more else Sum(keys, g)
  {
    if keys != [] {
      var init, last := keys[..|keys| - 1], keys[|keys| - 1];
      SumWithOneMore(init, g, h, key, more);
      SplitLast(keys);
      SumPush(init, last, g);
      SumPush(init, last, h);
      LastIsNew(init, last);
    }
  }

  lemma LastIsNew<T>(init: seq<T>, last: T)
    requires Distinct(init + [last])
    ensures last !in init && Distinct(init)
  {
    assert (init + [last])[|init|] == last;
    assert forall i :: 0 <= i < |init| ==> (init + [last])[i] == init[i];
  }

  /** Whatever the items contribute, the groups together contribute the same. */
  lemma {:induction false} GroupsPartition<T>(config: AggregateConfig, items: seq<PipelineItem>, keys: seq<string>,
                                              f: PipelineItem -> multiset<T>)
    requires Distinct(keys) && Keys(config, items) <= Elements(keys)
    ensures Sum(keys, GroupBag(config, items, f)) == Sum(items, f)
  {
    if items == [] {
      SumOfNothing(keys, GroupBag(config, items, f));
    } else {
      var init, last := items[..|items| - 1], items[|items| - 1];
      assert items == init + [last];
      assert KeyOf(config, last) in Keys(config, items);
      GroupsPartition(config, init, keys, f);
      forall k ensures GroupBag(config, items, f)(k) ==
                       if k == KeyOf(config, last) then GroupBag(config, init, f)(k) + f(last)
                       else GroupBag(config, init, f)(k)
      {
        SumPush(Group(config, init, k), last, f);
      }
      SumWithOneMore(keys, GroupBag(config, init, f), GroupBag(config, items, f), KeyOf(config, last), f(last));
    }
  }

  lemma StrictIsDistinct(keys: seq<string>)
    requires StrictlySorted(keys)
    ensures Distinct(keys)
  {
    forall i, j | 0 <= i < j < |keys| ensures keys[i] != keys[j] {
      Trichotomy(keys[i], keys[j]);
    }
  }

  /** The groups together hold every item exactly as often as the input does. */
  lemma GroupsHoldAllItems(config: AggregateConfig, items: seq<PipelineItem>)
    ensures Sum(KeyOrder(Keys(config, items)), GroupBag(config, items, (x: PipelineItem) => multiset{x})) ==
            multiset(items)
  {
    StrictIsDistinct(KeyOrder(Keys(config, items)));
    GroupsPartition(config, items, KeyOrder(Keys(config, items)), (x: PipelineItem) => multiset{x});
    SumOfSingletons(items);
  }

  lemma {:induction false} SumOfSingletons(items: seq<PipelineItem>)
    ensures Sum(items, (x: PipelineItem) => multiset{x}) == multiset(items)
  {
    if items != [] {
      SumOfSingletons(items[..|items| - 1]);
      assert items == items[..|items| - 1] + [items[|items| - 1]];
    }
  }

  function ProjectionOf(fields: seq<string>): PipelineItem -> multiset<Value> {
    (x: PipelineItem) => multiset{Object(CopyFields(map[], if x.record.Some? then x.record.value else map[], fields))}
  }

  lemma ProjectedPush(records: seq<Record>, last: Record, fields: seq<string>)
    ensures Projected(records + [last], fields) ==
            Projected(records, fields) + [Object(CopyFields(map[], last, fields))]
  {
  }

  lemma {:induction false} ProjectedSum(items: seq<PipelineItem>, fields: seq<string>)
    ensures multiset(Projected(Records(items), fields)) == Sum(items, ProjectionOf(fields))
  {
    if items != [] {
      var init, last := items[..|items| - 1], items[|items| - 1];
      ProjectedSum(init, fields);
      RecordsUnfold(items);
      ProjectedPush(Records(init), if last.record.Some? then last.record.value else map[], fields);
    }
  }

  function ArrayBag(config: AggregateConfig, items: seq<PipelineItem>, fields: seq<string>): string -> multiset<Value> {
    (key: string) => multiset(Projected(Records(Group(config, items, key)), fields))
  }

  lemma {:induction false} SameSum<A, B>(s: seq<A>, f: A -> multiset<B>, g: A -> multiset<B>)
    requires forall x :: f(x) == g(x)
    ensures Sum(s, f) == Sum(s, g)
  {
    if s != [] {
      SameSum(s[..|s| - 1], f, g);
    }
  }

  /** The collected arrays of all groups together are a permutation of the projected inputs. */
  lemma ArraysCollectAll(config: AggregateConfig, items: seq<PipelineItem>, fields: seq<string>)
    ensures Sum(KeyOrder(Keys(config, items)), ArrayBag(config, items, fields)) ==
            multiset(Projected(Records(items), fields))
  {
    var keys := KeyOrder(Keys(config, items));
    StrictIsDistinct(keys);
    GroupsPartition(config, items, keys, ProjectionOf(fields));
    ProjectedSum(items, fields);
    forall k ensures ArrayBag(config, items, fields)(k) == GroupBag(config, items, ProjectionOf(fields))(k) {
      ProjectedSum(Group(config, items, k), fields);
    }
    SameSum(keys, ArrayBag(config, items, fields), GroupBag(config, items, ProjectionOf(fields)));
  }

  function NumberOf(config: AggregateConfig, field: string): PipelineItem -> multiset<Double> {
    (x: PipelineItem) =>
      if x.record.Some? && field in x.record.value && AsNumber(config, x.record.value[field]).Some?
      then multiset{AsNumber(config, x.record.value[field]).value} else multiset{}
  }

  lemma {:induction false} NumbersSum(config: AggregateConfig, items: seq<PipelineItem>, field: string)
    ensures multiset(Numbers(config, Records(items), field)) == Sum(items, NumberOf(config, field))
  {
    if items != [] {
      var init := items[..|items| - 1];
      NumbersSum(config, init, field);
      RecordsUnfold(items);
      NumbersUnfold(config, Records(init), Records(items)[|items| - 1], field);
    }
  }

  lemma RecordsUnfold(items: seq<PipelineItem>)
    requires items != []
    ensures var n := |items| - 1;
            Records(items) == Records(items[..n]) + [if items[n].record.Some? then items[n].record.value else map[]]
  {
  }

  lemma NumbersUnfold(config: AggregateConfig, records: seq<Record>, last: Record, field: string)
    ensures multiset(Numbers(config, records + [last], field)) ==
            multiset(Numbers(config, records, field)) +
            if field in last && AsNumber(config, last[field]).Some? then multiset{AsNumber(config, last[field]).value}
            else multiset{}
  {
    assert (records + [last])[..|records|] == records;
  }

  /** The numbers a field contributes, group by group. */
  function NumberBag(config: AggregateConfig, items: seq<PipelineItem>, field: string): string -> multiset<Double> {
    (key: string) => multiset(Numbers(config, Records(Group(config, items, key)), field))
  }

  /** The groups' values of a field together are a permutation of the field's values. */
  lemma ValuesAddUp(config: AggregateConfig, items: seq<PipelineItem>, field: string)
    ensures Sum(KeyOrder(Keys(config, items)), NumberBag(config, items, field)) ==
            multiset(Numbers(config, Records(items), field))
  {
    var keys := KeyOrder(Keys(config, items));
    StrictIsDistinct(keys);
    GroupsPartition(config, items, keys, NumberOf(config, field));
    NumbersSum(config, items, field);
    forall k ensures NumberBag(config, items, field)(k) == GroupBag(config, items, NumberOf(config, field))(k) {
      NumbersSum(config, Group(config, items, k), field);
    }
    SameSum(keys, NumberBag(config, items, field), GroupBag(config, items, NumberOf(config, field)));
  }

  /** Groups keep the input order: an earlier member of a group stands earlier in the input. */
  lemma {:induction false} GroupIsStable(config: AggregateConfig, items: seq<PipelineItem>, key: string)
    returns (at: seq<nat>)
    ensures |at| == |Group(config, items, key)|
    ensures forall i :: 0 <= i < |at| ==> at[i] < |items| && items[at[i]] == Group(config, items, key)[i]
    ensures forall i, j :: 0 <= i < j < |at| ==> at[i] < at[j]
  {
    if items == [] {
      at := [];
    } else {
      var n := |items| - 1;
      at := GroupIsStable(config, items[..n], key);
      if KeyOf(config, items[n]) == key {
        at := at + [n];
      }
    }
  }
}
