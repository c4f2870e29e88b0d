/** What the outputs of a grouping mean: totals, extremes and fields. */
module AggregateProperties {
  import opened Seqs
  import opened Order
  import opened Ids
  import opened Json
  import opened Doubles
  import opened Items
  import opened Aggregate
  import opened AggregateGroups

  // -- Extremes and averages ----------------------------------------------------------------

  /** The order of the extended reals. */
  predicate AtMost(a: Double, b: Double) {
    a.NegativeInfinity? || b.PositiveInfinity? || (a.Finite? && b.Finite? && a.r <= b.r)
  }

  /**
   * Least and greatest are values of the field that bound all the others but NaN; shown as Null when there is none but
   * NaN, and when they are infinite.
   */
  lemma ExtremesOfField(config: AggregateConfig, records: seq<Record>, field: string)
    returns (low: Double, high: Double)
    ensures var values := Numbers(config, records, field);
            && ComputeAggregate(config, "min", field, records) == (if low.Finite? then Num(Float(low.r)) else Null)
            && ComputeAggregate(config, "max", field, records) == (if high.Finite? then Num(Float(high.r)) else Null)
            && if forall x :: x in values ==> x.NotANumber? then low.NotANumber? && high.NotANumber?
               else
                 && low in values && high in values && !low.NotANumber? && !high.NotANumber?
                 && forall x :: x in values ==> x.NotANumber? || (AtMost(low, x) && AtMost(x, high))
  {
    var values := Numbers(config, records, field);
    low, high := NotANumber, NotANumber;
    if values != [] {
      low, high := MinOf(values), MaxOf(values);
      GreatestIsAttained(values);
      LeastIsAttained(values);
    }
  }

  /** The number a value counts as: a float as it is, an integer rounded, a string as it parses. */
  ghost predicate CountsAs(m: Arithmetic, v: Value, d: Double) {
    || (v.Num? && d == Finite(if v.n.Integer? then m.toF64(v.n.i) else v.n.r))
    || (v.Str? && m.parse(v.s) == Some(d))
  }

  ghost predicate HasNumber(m: Arithmetic, record: Record, field: string) {
    field in record && exists d :: CountsAs(m, record[field], d)
  }

  /** These positions hold the records whose field counts as a number, and these are the numbers. */
  ghost predicate NumbersAt(m: Arithmetic, records: seq<Record>, field: string, at: seq<nat>, values: seq<Double>) {
    && Ascending(at, |records|) && |values| == |at|
    && (forall k :: 0 <= k < |records| ==> (k in at <==> HasNumber(m, records[k], field)))
    && forall i :: 0 <= i < |at| ==> field in records[at[i]] && CountsAs(m, records[at[i]][field], values[i])
  }

  lemma NumbersAtPush(m: Arithmetic, records: seq<Record>, last: Record, field: string, at: seq<nat>,
                      values: seq<Double>, d: Option<Double>)
    requires NumbersAt(m, records, field, at, values)
    requires if d.Some? then field in last && CountsAs(m, last[field], d.value) else !HasNumber(m, last, field)
    ensures NumbersAt(m, records + [last], field, if d.Some? then at + [|records|] else at,
                      if d.Some? then values + [d.value] else values)
  {
    var at', all := if d.Some? then at + [|records|] else at, records + [last];
    forall k | 0 <= k < |all| ensures k in at' <==> HasNumber(m, all[k], field) {
      assert k < |records| ==> all[k] == records[k];
      assert k in at' <==> k in at || (k == |records| && d.Some?);
    }
  }

  lemma {:induction false} NumbersAre(config: AggregateConfig, records: seq<Record>, field: string)
    returns (at: seq<nat>)
    ensures NumbersAt(config.arithmetic, records, field, at, Numbers(config, records, field))
    ensures ComputeAggregate(config, "count", field, records) == Num(Integer(|at|))
  {
    at := [];
    if records != [] {
      var n := |records| - 1;
      at := NumbersAre(config, records[..n], field);
      var d := if field in records[n] then AsNumber(config, records[n][field]) else None;
      SplitLast(records);
      NumbersAtPush(config.arithmetic, records[..n], records[n], field, at, Numbers(config, records[..n], field), d);
      at := if d.Some? then at + [n] else at;
    }
  }

  /** "first" takes the field of the group's first item in the input, missing or not; "last" that of the last. */
  lemma FirstAndLast(config: AggregateConfig, items: seq<PipelineItem>, key: string, field: string, i: nat, j: nat)
    requires i < |items| && KeyOf(config, items[i]) == key && items[i].record.Some?
    requires forall k :: 0 <= k < i ==> KeyOf(config, items[k]) != key
    requires j < |items| && KeyOf(config, items[j]) == key && items[j].record.Some?
    requires forall k :: j < k < |items| ==> KeyOf(config, items[k]) != key
    ensures var group := Records(Group(config, items, key));
            && ComputeAggregate(config, "first", field, group) ==
               (if field in items[i].record.value then items[i].record.value[field] else Null)
            && ComputeAggregate(config, "last", field, group) ==
               (if field in items[j].record.value then items[j].record.value[field] else Null)
  {
    FirstOfGroup(config, items, key, i);
    LastOfGroup(config, items, key, j);
  }

  lemma {:induction false} FirstOfGroup(config: AggregateConfig, items: seq<PipelineItem>, key: string, i: nat)
    requires i < |items| && KeyOf(config, items[i]) == key
    requires forall k :: 0 <= k < i ==> KeyOf(config, items[k]) != key
    ensures Group(config, items, key) != [] && Group(config, items, key)[0] == items[i]
  {
    var n := |items| - 1;
    if i < n {
      FirstOfGroup(config, items[..n], key, i);
    } else {
      NoneInGroup(config, items[..n], key);
    }
  }

  lemma {:induction false} LastOfGroup(config: AggregateConfig, items: seq<PipelineItem>, key: string, j: nat)
    requires j < |items| && KeyOf(config, items[j]) == key
    requires forall k :: j < k < |items| ==> KeyOf(config, items[k]) != key
    ensures var group := Group(config, items, key); group != [] && group[|group| - 1] == items[j]
  {
    if j < |items| - 1 {
      LastOfGroup(config, items[..|items| - 1], key, j);
    }
  }

  lemma {:induction false} NoneInGroup(config: AggregateConfig, items: seq<PipelineItem>, key: string)
    requires forall k :: 0 <= k < |items| ==> KeyOf(config, items[k]) != key
    ensures Group(config, items, key) == []
  {
    if items != [] {
      NoneInGroup(config, items[..|items| - 1], key);
    }
  }

  lemma SumOfPush(m: Arithmetic, values: seq<Double>, x: Double)
    ensures SumOf(m, values + [x]) == m.add(SumOf(m, values), x)
  {
    assert (values + [x])[..|values|] == values;
  }

  /** Finite values between these bounds. */
  ghost predicate Within(values: seq<Double>, low: real, high: real) {
    forall i :: 0 <= i < |values| ==> values[i].Finite? && low <= values[i].r <= high
  }

  /** A number added up `n` times. */
  function Times(x: real, n: nat): real {
    if n == 0 then 0.0 else Times(x, n - 1) + x
  }

  lemma {:induction false} ExactSumIsBetween(m: Arithmetic, values: seq<Double>, low: real, high: real)
    requires ExactAddition(m) && Within(values, low, high)
    ensures SumOf(m, values).Finite? && Times(low, |values|) <= SumOf(m, values).r <= Times(high, |values|)
  {
    if values != [] {
      var init, last := values[..|values| - 1], values[|values| - 1];
      ExactSumIsBetween(m, init, low, high);
      AddsExactly(m, SumOf(m, init), last);
    }
  }

  lemma {:induction false} TimesIsProduct(x: real, n: nat)
    ensures Times(x, n) == x * n as real
  {
    if 0 < n {
      TimesIsProduct(x, n - 1);
      assert x * n as real == x * (n - 1) as real + x;
    }
  }

  lemma DivideBounds(low: real, total: real, high: real, n: nat)
    requires 0 < n && Times(low, n) <= total <= Times(high, n)
    ensures low <= total / n as real <= high
  {
    TimesIsProduct(low, n);
    TimesIsProduct(high, n);
    assert total == total / n as real * n as real;
  }

  lemma ExactAverage(m: Arithmetic, values: seq<Double>, low: real, high: real)
    requires ExactAddition(m) && ExactDivision(m) && values != [] && Within(values, low, high)
    ensures var avg := m.divide(SumOf(m, values), |values|); avg.Finite? && low <= avg.r <= high
  {
    ExactSumIsBetween(m, values, low, high);
    DividesExactly(m, SumOf(m, values), |values|);
    DivideBounds(low, SumOf(m, values).r, high, |values|);
  }

  /** Where addition and division are exact, the average of finite values lies between any bounds of theirs. */
  lemma ExactAverageIsBetween(config: AggregateConfig, records: seq<Record>, field: string, low: real, high: real)
    requires ExactAddition(config.arithmetic) && ExactDivision(config.arithmetic)
    requires Numbers(config, records, field) != [] && Within(Numbers(config, records, field), low, high)
    ensures var avg := ComputeAggregate(config, "avg", field, records);
            avg.Num? && avg.n.Float? && low <= avg.n.r <= high
  {
    ExactAverage(config.arithmetic, Numbers(config, records, field), low, high);
  }

  /**
   * With rounding it need not: where adding x three times and dividing by 3 gives more than x, as in double precision
   * for x = 0.1, the average of three equal values exceeds their maximum.
   */
  lemma RoundedAverageEscapes(config: AggregateConfig, field: string, x: real, avg: real)
    requires var m := config.arithmetic;
             m.divide(m.add(m.add(m.add(Finite(0.0), Finite(x)), Finite(x)), Finite(x)), 3) == Finite(avg) && x < avg
    ensures var record: Record := map[field := Num(Float(x))];
            && ComputeAggregate(config, "avg", field, [record, record, record]) == Num(Float(avg))
            && ComputeAggregate(config, "max", field, [record, record, record]) == Num(Float(x))
  {
    var record: Record := map[field := Num(Float(x))];
    var m, d := config.arithmetic, Finite(x);
    ThreeNumbers(config, record, field, d);
    SumOfThree(m, d);
    MaxOfThree(d);
  }

  lemma ThreeNumbers(config: AggregateConfig, record: Record, field: string, d: Double)
    requires field in record && AsNumber(config, record[field]) == Some(d)
    ensures Numbers(config, [record, record, record], field) == [d, d, d]
  {
    var records := [record, record, record];
    SameNumbers(config, records, record, field, d);
    assert Numbers(config, records, field) == [d, d, d];
  }

  lemma {:induction false} SameNumbers(config: AggregateConfig, records: seq<Record>, record: Record, field: string,
                                       d: Double)
    requires field in record && AsNumber(config, record[field]) == Some(d)
    requires forall i :: 0 <= i < |records| ==> records[i] == record
    ensures var values := Numbers(config, records, field);
            |values| == |records| && forall i :: 0 <= i < |values| ==> values[i] == d
  {
    if records != [] {
      SameNumbers(config, records[..|records| - 1], record, field, d);
    }
  }

  lemma SumOfThree(m: Arithmetic, d: Double)
    ensures SumOf(m, [d, d, d]) == m.add(m.add(m.add(Finite(0.0), d), d), d)
  {
    SumOfPush(m, [], d);
    SumOfPush(m, [d], d);
    SumOfPush(m, [d, d], d);
    assert [] + [d] == [d] && [d] + [d] == [d, d] && [d, d] + [d] == [d, d, d];
  }

  lemma MaxOfThree(d: Double)
    ensures MaxOf([d, d, d]) == d
  {
    GreatestIsAttained([d, d, d]);
  }

  // -- Totals -------------------------------------------------------------------------------

  function Amount(v: Value): real {
    if v.Num? then if v.n.Integer? then v.n.i as real else v.n.r else 0.0
  }

  /** The amount an aggregate function computes over a field of the items. */
  function Reduced(config: AggregateConfig, name: string, field: string, items: seq<PipelineItem>): real {
    Amount(ComputeAggregate(config, name, field, Records(items)))
  }

  /** The number an item holds under a field. */
  function NumberIn(config: AggregateConfig, field: string, item: PipelineItem): Option<Double> {
    if item.record.Some? && field in item.record.value then AsNumber(config, item.record.value[field]) else None
  }

  /** Counts always add up; sums do where addition is exact and the values are finite. */
  ghost predicate Additive(config: AggregateConfig, name: string, field: string, items: seq<PipelineItem>) {
    || name == "count"
    || (name == "sum" && ExactAddition(config.arithmetic)
        && forall x :: x in items && NumberIn(config, field, x).Some? ==> NumberIn(config, field, x).value.Finite?)
  }

  /** What one more item adds to a total. */
  function Contribution(config: AggregateConfig, name: string, field: string, item: PipelineItem): real {
    var number := NumberIn(config, field, item);
    if number.None? then 0.0 else if name == "count" then 1.0 else if number.value.Finite? then number.value.r else 0.0
  }

  lemma {:induction false} ExactSumIsFinite(config: AggregateConfig, field: string, items: seq<PipelineItem>)
    requires Additive(config, "sum", field, items)
    ensures SumOf(config.arithmetic, Numbers(config, Records(items), field)).Finite?
  {
    if items != [] {
      var init, last := items[..|items| - 1], items[|items| - 1];
      assert items == init + [last];
      ExactSumIsFinite(config, field, init);
      SumPushIn(config, field, init, last);
      if NumberIn(config, field, last).Some? {
        AddsExactly(config.arithmetic, SumOf(config.arithmetic, Numbers(config, Records(init), field)),
          NumberIn(config, field, last).value);
      }
    }
  }

  /** Adding an item's number, if it has one. */
  lemma SumPushIn(config: AggregateConfig, field: string, items: seq<PipelineItem>, item: PipelineItem)
    ensures var number, m := NumberIn(config, field, item), config.arithmetic;
            SumOf(m, Numbers(config, Records(items + [item]), field)) ==
            if number.None? then SumOf(m, Numbers(config, Records(items), field))
            else m.add(SumOf(m, Numbers(config, Records(items), field)), number.value)
  {
    var number := NumberIn(config, field, item);
    NumbersPush(config, field, items, item);
    var before := Numbers(config, Records(items), field);
    if number.Some? {
      SumOfPush(config.arithmetic, before, number.value);
    } else {
      assert before + [] == before;
    }
  }

  lemma NumbersPush(config: AggregateConfig, field: string, items: seq<PipelineItem>, item: PipelineItem)
    ensures var number := NumberIn(config, field, item);
            Numbers(config, Records(items + [item]), field) ==
            Numbers(config, Records(items), field) + if number.Some? then [number.value] else []
  {
    RecordsUnfold(items + [item]);
    assert (items + [item])[..|items|] == items;
    var records := Records(items + [item]);
    assert records[..|records| - 1] == Records(items);
  }

  lemma ReducedOneMore(config: AggregateConfig, name: string, field: string, items: seq<PipelineItem>,
                       item: PipelineItem)
    requires Additive(config, name, field, items + [item])
    ensures Reduced(config, name, field, items + [item]) ==
            Reduced(config, name, field, items) + Contribution(config, name, field, item)
  {
    NumbersPush(config, field, items, item);
    if name == "sum" {
      assert forall x :: x in items ==> x in items + [item];
      assert item in items + [item];
      ExactSumIsFinite(config, field, items);
      SumPushIn(config, field, items, item);
      if NumberIn(config, field, item).Some? {
        AddsExactly(config.arithmetic, SumOf(config.arithmetic, Numbers(config, Records(items), field)),
          NumberIn(config, field, item).value);
      }
    }
  }

  function GroupAmount(config: AggregateConfig, name: string, field: string, items: seq<PipelineItem>): string -> real {
    (key: string) => Reduced(config, name, field, Group(config, items, key))
  }

  function RealTotal(keys: seq<string>, f: string -> real): real {
    if keys == [] then 0.0 else RealTotal(keys[..|keys| - 1], f) + f(keys[|keys| - 1])
  }

  lemma {:induction false} RealTotalOneMore(keys: seq<string>, f: string -> real, g: string -> real, key: string,
                                            more: real)
    requires Distinct(keys) && forall k :: g(k) == f(k) + if k == key then more else 0.0
    ensures RealTotal(keys, g) == if key in keys then RealTotal(keys, f) + more else RealTotal(keys, f)
  {
    if keys != [] {
      var init, last := keys[..|keys| - 1], keys[|keys| - 1];
      RealTotalOneMore(init, f, g, key, more);
      assert keys == init + [last];
    }
  }

  lemma {:induction false} TotalOfNothing(config: AggregateConfig, name: string, field: string, keys: seq<string>)
    requires name == "count" || name == "sum"
    ensures RealTotal(keys, GroupAmount(config, name, field, [])) == 0.0
  {
    if keys != [] {
      TotalOfNothing(config, name, field, keys[..|keys| - 1]);
    }
  }

  lemma {:induction false} TotalsOver(config: AggregateConfig, name: string, field: string, items: seq<PipelineItem>,
                                      keys: seq<string>)
    requires Additive(config, name, field, items) && Distinct(keys) && Keys(config, items) <= Elements(keys)
    ensures RealTotal(keys, GroupAmount(config, name, field, items)) == Reduced(config, name, field, items)
  {
    if items == [] {
      TotalOfNothing(config, name, field, keys);
    } else {
      var init, last := items[..|items| - 1], items[|items| - 1];
      assert items == init + [last];
      assert KeyOf(config, last) in Keys(config, items);
      TotalsOver(config, name, field, init, keys);
      ReducedOneMore(config, name, field, init, last);
      forall k { GroupAmountOneMore(config, name, field, init, last, k); }
      RealTotalOneMore(keys, GroupAmount(config, name, field, init), GroupAmount(config, name, field, init + [last]),
        KeyOf(config, last), Contribution(config, name, field, last));
    }
  }

  lemma GroupAmountOneMore(config: AggregateConfig, name: string, field: string, init: seq<PipelineItem>,
                           last: PipelineItem, k: string)
    requires Additive(config, name, field, init + [last])
    ensures GroupAmount(config, name, field, init + [last])(k) ==
            GroupAmount(config, name, field, init)(k)
            + if k == KeyOf(config, last) then Contribution(config, name, field, last) else 0.0
  {
    var group := Group(config, init, k);
    assert (init + [last])[..|init|] == init;
    if k == KeyOf(config, last) {
      forall x | x in group + [last] ensures x in init + [last] {
        GroupMembers(config, init, k, x);
      }
      ReducedOneMore(config, name, field, group, last);
    }
  }

  /** The groups' counts add up to the count over all inputs. */
  lemma CountsAddUp(config: AggregateConfig, field: string, items: seq<PipelineItem>)
    ensures RealTotal(KeyOrder(Keys(config, items)), GroupAmount(config, "count", field, items)) ==
            Reduced(config, "count", field, items)
  {
    StrictIsDistinct(KeyOrder(Keys(config, items)));
    TotalsOver(config, "count", field, items, KeyOrder(Keys(config, items)));
  }

  /** The groups' sums of finite values add up to the sum over all inputs where addition is exact. */
  lemma ExactSumsAddUp(config: AggregateConfig, field: string, items: seq<PipelineItem>)
    requires ExactAddition(config.arithmetic)
    requires forall x :: x in items && NumberIn(config, field, x).Some? ==> NumberIn(config, field, x).value.Finite?
    ensures RealTotal(KeyOrder(Keys(config, items)), GroupAmount(config, "sum", field, items)) ==
            Reduced(config, "sum", field, items)
  {
    StrictIsDistinct(KeyOrder(Keys(config, items)));
    TotalsOver(config, "sum", field, items, KeyOrder(Keys(config, items)));
  }

  // -- Fields of an output ---------------------------------------------------------------------

  lemma {:induction false} CopiedIff(out: Record, from: Record, fields: seq<string>, f: string)
    ensures f in CopyFields(out, from, fields) <==> f in out || (f in fields && f in from)
    ensures f in CopyFields(out, from, fields) ==>
              CopyFields(out, from, fields)[f] == if f in fields && f in from then from[f] else out[f]
  {
    if fields != [] {
      CopiedIff(out, from, fields[..|fields| - 1], f);
      assert fields == fields[..|fields| - 1] + [fields[|fields| - 1]];
    }
  }

  /** The last aggregate written to a field. */
  function LastAggregate(ops: seq<AggregateOp>, f: string): Option<AggregateOp> {
    if ops == [] then None
    else if ops[|ops| - 1].output == f then Some(ops[|ops| - 1])
    else LastAggregate(ops[..|ops| - 1], f)
  }

  /** The last collected array written to a field. */
  function LastArray(ops: seq<CollectArrayOp>, f: string): Option<CollectArrayOp> {
    if ops == [] then None
    else if ops[|ops| - 1].output == f then Some(ops[|ops| - 1])
    else LastArray(ops[..|ops| - 1], f)
  }

  lemma {:induction false} AggregatedField(config: AggregateConfig, out: Record, records: seq<Record>,
                                           ops: seq<AggregateOp>, f: string)
    ensures var r, last := AddAggregates(config, out, records, ops), LastAggregate(ops, f);
            && (f in r <==> f in out || last.Some?)
            && (f in r ==>
                  r[f] == if last.Some? then ComputeAggregate(config, last.value.function_, last.value.field, records)
                          else out[f])
  {
    if ops != [] {
      AggregatedField(config, out, records, ops[..|ops| - 1], f);
    }
  }

  lemma {:induction false} CollectedField(out: Record, records: seq<Record>, ops: seq<CollectArrayOp>, f: string)
    ensures var r, last := AddArrays(out, records, ops), LastArray(ops, f);
            && (f in r <==> f in out || last.Some?)
            && (f in r ==> r[f] == if last.Some? then Array(Projected(records, last.value.fields)) else out[f])
  {
    if ops != [] {
      CollectedField(out, records, ops[..|ops| - 1], f);
    }
  }

  /**
   * What stands under each field of a group's output: a collected array, else an aggregate, else a copied key field.
   */
  lemma OutputField(config: AggregateConfig, key: string, group: seq<PipelineItem>, f: string)
    requires group != []
    ensures var out, records := GroupOutput(config, key, group), Records(group);
            var list, aggregate := LastArray(config.collectArrays, f), LastAggregate(config.aggregates, f);
            && out == group[0].(id := group[0].id + ":agg:" + key, record := out.record) && out.record.Some?
            && (f in out.record.value <==> list.Some? || aggregate.Some? || (f in config.groupBy && f in records[0]))
            && (f in out.record.value ==>
                  out.record.value[f] ==
                  if list.Some? then Array(Projected(records, list.value.fields))
                  else if aggregate.Some?
                  then ComputeAggregate(config, aggregate.value.function_, aggregate.value.field, records)
                  else records[0][f])
  {
    var records := Records(group);
    var copied := CopyFields(map[], records[0], config.groupBy);
    var reduced := AddAggregates(config, copied, records, config.aggregates);
    CopiedIff(map[], records[0], config.groupBy, f);
    AggregatedField(config, copied, records, config.aggregates, f);
    CollectedField(reduced, records, config.collectArrays, f);
  }
}
