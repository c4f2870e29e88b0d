/** The assemble stage: an indexed join of a primary stream with other streams. */
module Assemble {
  import opened Seqs
  import opened Ids
  import opened Json
  import opened Items

  datatype AssembleJoin = AssembleJoin(stream: string, key: string, foreignKey: string, nestAs: string, collect: bool)

  datatype AssembleConfig = AssembleConfig(primaryStream: string, primaryKey: string, joins: seq<AssembleJoin>)

  function StreamName(item: PipelineItem): string {
    if item.stream.Some? then item.stream.value else ""
  }

  // -- The reference: nested loops over the input ------------------------------------

  function InStream(items: seq<PipelineItem>, stream: string): seq<PipelineItem> {
    if items == [] then []
    else
      var rest, last := InStream(items[..|items| - 1], stream), items[|items| - 1];
      if StreamName(last) == stream then rest + [last] else rest
  }

  /** The item is on the stream: tagged with it, or untagged when the stream is the empty one. */
  ghost predicate OnStream(item: PipelineItem, stream: string) {
    item.stream == Some(stream) || (item.stream.None? && stream == "")
  }

  ghost predicate OnStreamAt(items: seq<PipelineItem>, stream: string, at: seq<nat>) {
    Ascending(at, |items|) && forall k :: 0 <= k < |items| ==> (k in at <==> OnStream(items[k], stream))
  }

  lemma OnStreamPush(items: seq<PipelineItem>, x: PipelineItem, stream: string, at: seq<nat>)
    requires OnStreamAt(items, stream, at)
    ensures OnStreamAt(items + [x], stream, if OnStream(x, stream) then at + [|items|] else at)
  {
    var at', items' := if OnStream(x, stream) then at + [|items|] else at, items + [x];
    forall k | 0 <= k < |items'| ensures k in at' <==> OnStream(items'[k], stream) {
      assert k < |items| ==> items'[k] == items[k];
      assert k in at' <==> k in at || (k == |items| && OnStream(x, stream));
    }
  }

  /** A stream holds exactly the items that are on it, in input order. */
  lemma {:induction false} StreamHolds(items: seq<PipelineItem>, stream: string) returns (at: seq<nat>)
    ensures OnStreamAt(items, stream, at) && InStream(items, stream) == Picked(items, at)
  {
    if items == [] {
      at := [];
    } else {
      var n := |items| - 1;
      var before := StreamHolds(items[..n], stream);
      SplitLast(items);
      OnStreamPush(items[..n], items[n], stream, before);
      at := if OnStream(items[n], stream) then before + [n] else before;
      PickedPush(items[..n], items[n], before);
    }
  }

  /** The records of `items` whose foreign key is `key`, in input order. */
  function Matching(items: seq<PipelineItem>, foreignKey: string, key: string): seq<Value> {
    if items == [] then []
    else
      var rest, last := Matching(items[..|items| - 1], foreignKey, key), items[|items| - 1];
      if last.record.Some? && StringField(last.record.value, foreignKey) == key
      then rest + [Object(last.record.value)] else rest
  }

  /** The foreign key under which a stream ends up indexed: that of the last join that names it. */
  function LastForeignKey(joins: seq<AssembleJoin>, stream: string): Option<string> {
    if joins == [] then None
    else if joins[|joins| - 1].stream == stream then Some(joins[|joins| - 1].foreignKey)
    else LastForeignKey(joins[..|joins| - 1], stream)
  }

  /** What a join on `stream` finds for `key`; the primary stream has been taken out of the input. */
  function Found(config: AssembleConfig, items: seq<PipelineItem>, stream: string, key: string): seq<Value> {
    var foreignKey := LastForeignKey(config.joins, stream);
    if stream == config.primaryStream || foreignKey.None? then []
    else Matching(InStream(items, stream), foreignKey.value, key)
  }

  function Nested(found: seq<Value>, collect: bool): Value {
    if collect then Array(found) else if found == [] then Null else found[0]
  }

  function AssembledRecord(config: AssembleConfig, items: seq<PipelineItem>, primary: Record,
                           joins: seq<AssembleJoin>): Record {
    if joins == [] then primary
    else
      var join := joins[|joins| - 1];
      AssembledRecord(config, items, primary, joins[..|joins| - 1])
        [join.nestAs := Nested(Found(config, items, join.stream, StringField(primary, join.key)), join.collect)]
  }

  function AssembledItem(config: AssembleConfig, items: seq<PipelineItem>, item: PipelineItem): PipelineItem
    requires item.record.Some?
  {
    var key := StringField(item.record.value, config.primaryKey);
    item.(id := "receipt:" + key, displayName := "Receipt " + key,
          record := Some(AssembledRecord(config, items, item.record.value, config.joins)))
  }

  /** One output per primary item, in order; the first primary item without a record fails the batch. */
  function NestedLoopJoin(config: AssembleConfig, items: seq<PipelineItem>, primaries: seq<PipelineItem>): ItemResult {
    if primaries == [] then Ok([])
    else
      var before := NestedLoopJoin(config, items, primaries[..|primaries| - 1]);
      var last := primaries[|primaries| - 1];
      if before.Err? then before
      else if last.record.None? then Err(StageError(last.id, "primary item has no record"))
      else Ok(before.value + [AssembledItem(config, items, last)])
  }

  // -- The indexed join ------------------------------------------------------------------

  type Index = map<string, seq<Value>>

  function Lookup<V>(m: map<string, seq<V>>, key: string): seq<V> {
    if key in m then m[key] else []
  }

  function Push<V>(m: map<string, seq<V>>, key: string, value: V): map<string, seq<V>> {
    m[key := Lookup(m, key) + [value]]
  }

  ghost predicate IsIndex(index: Index, items: seq<PipelineItem>, foreignKey: string) {
    forall key :: Lookup(index, key) == Matching(items, foreignKey, key)
  }

  method Partition(items: seq<PipelineItem>) returns (streams: map<string, seq<PipelineItem>>)
    ensures forall s :: Lookup(streams, s) == InStream(items, s)
  {
    streams := map[];
    for k := 0 to |items|
      invariant forall s :: Lookup(streams, s) == InStream(items[..k], s)
    {
      assert items[..k + 1][..k] == items[..k];
      streams := Push(streams, StreamName(items[k]), items[k]);
    }
    assert items[..|items|] == items;
  }

  method BuildIndex(items: seq<PipelineItem>, foreignKey: string) returns (index: Index)
    ensures IsIndex(index, items, foreignKey)
  {
    index := map[];
    for k := 0 to |items|
      invariant IsIndex(index, items[..k], foreignKey)
    {
      assert items[..k + 1][..k] == items[..k];
      if items[k].record.Some? {
        index := Push(index, StringField(items[k].record.value, foreignKey), Object(items[k].record.value));
      }
    }
    assert items[..|items|] == items;
  }

  /** Every stream named by `joins` is indexed by its last foreign key. */
  ghost predicate Indexed(joins: seq<AssembleJoin>, streams: map<string, seq<PipelineItem>>,
                          indexes: map<string, Index>) {
    forall s ::
      && (s in indexes <==> LastForeignKey(joins, s).Some?)
      && (s in indexes ==> IsIndex(indexes[s], Lookup(streams, s), LastForeignKey(joins, s).value))
  }

  method BuildIndexes(joins: seq<AssembleJoin>, streams: map<string, seq<PipelineItem>>)
    returns (indexes: map<string, Index>)
    ensures Indexed(joins, streams, indexes)
  {
    indexes := map[];
    for k := 0 to |joins|
      invariant Indexed(joins[..k], streams, indexes)
    {
      assert joins[..k + 1][..k] == joins[..k];
      var index := BuildIndex(Lookup(streams, joins[k].stream), joins[k].foreignKey);
      indexes := indexes[joins[k].stream := index];
    }
    assert joins[..|joins|] == joins;
  }

  method AssembleRecord(config: AssembleConfig, ghost items: seq<PipelineItem>, streams: map<string, seq<PipelineItem>>,
                        indexes: map<string, Index>, primary: Record)
    returns (assembled: Record)
    requires forall s :: Lookup(streams, s) == if s == config.primaryStream then [] else InStream(items, s)
    requires Indexed(config.joins, streams, indexes)
    ensures assembled == AssembledRecord(config, items, primary, config.joins)
  {
    assembled := primary;
    for k := 0 to |config.joins|
      invariant assembled == AssembledRecord(config, items, primary, config.joins[..k])
    {
      var join := config.joins[k];
      assert config.joins[..k + 1][..k] == config.joins[..k];
      JoinIsIndexed(config.joins, k);
      var lookupKey := StringField(primary, join.key);
      if join.stream in indexes {
        var matches := Lookup(indexes[join.stream], lookupKey);
        NoMatchInNothing(LastForeignKey(config.joins, join.stream).value, lookupKey);
        assembled := assembled[join.nestAs := Nested(matches, join.collect)];
      }
    }
    assert config.joins[..|config.joins|] == config.joins;
  }

  lemma NoMatchInNothing(foreignKey: string, key: string)
    ensures Matching([], foreignKey, key) == []
  {
  }

  lemma {:induction false} JoinIsIndexed(joins: seq<AssembleJoin>, k: nat)
    requires k < |joins|
    ensures LastForeignKey(joins, joins[k].stream).Some?
  {
    if joins[|joins| - 1].stream != joins[k].stream {
      JoinIsIndexed(joins[..|joins| - 1], k);
    }
  }

  lemma {:induction false} ErrorPersists(config: AssembleConfig, items: seq<PipelineItem>, primaries: seq<PipelineItem>,
                                         k: nat)
    requires k <= |primaries| && NestedLoopJoin(config, items, primaries[..k]).Err?
    ensures NestedLoopJoin(config, items, primaries) == NestedLoopJoin(config, items, primaries[..k])
    decreases |primaries| - k
  {
    if k == |primaries| {
      assert primaries[..k] == primaries;
    } else {
      assert primaries[..k + 1][..k] == primaries[..k];
      ErrorPersists(config, items, primaries, k + 1);
    }
  }

  /** The indexed join computes the nested-loop join. */
  method ProcessBatch(config: AssembleConfig, items: seq<PipelineItem>) returns (r: ItemResult)
    ensures r == NestedLoopJoin(config, items, InStream(items, config.primaryStream))
  {
    var streams := Partition(items);
    var primaries := Lookup(streams, config.primaryStream);
    streams := streams - {config.primaryStream};
    var indexes := BuildIndexes(config.joins, streams);
    var results := [];
    for k := 0 to |primaries|
      invariant NestedLoopJoin(config, items, primaries[..k]) == Ok(results)
    {
      assert primaries[..k + 1][..k] == primaries[..k];
      var item := primaries[k];
      if item.record.None? {
        ErrorPersists(config, items, primaries, k + 1);
        return Err(StageError(item.id, "primary item has no record"));
      }
      var assembled := AssembleRecord(config, items, streams, indexes, item.record.value);
      var key := StringField(item.record.value, config.primaryKey);
      results := results + [item.(id := "receipt:" + key, displayName := "Receipt " + key, record := Some(assembled))];
    }
    assert primaries[..|primaries|] == primaries;
    return Ok(results);
  }

  // -- What a join finds ---------------------------------------------------------------------

  /** The two fields are present and equal. */
  predicate RawEqual(record: Record, foreignKey: string, primary: Record, key: string) {
    foreignKey in record && key in primary && record[foreignKey] == primary[key]
  }

  /** The records whose foreign key is the primary's key field, value for value, in input order. */
  function Genuine(items: seq<PipelineItem>, foreignKey: string, primary: Record, key: string): seq<Value> {
    if items == [] then []
    else
      var rest, last := Genuine(items[..|items| - 1], foreignKey, primary, key), items[|items| - 1];
      if last.record.Some? && RawEqual(last.record.value, foreignKey, primary, key)
      then rest + [Object(last.record.value)] else rest
  }

  /** What the definition of one join asks for: its own stream and its own two fields, over all the input. */
  function Wanted(items: seq<PipelineItem>, join: AssembleJoin, primary: Record): seq<Value> {
    Genuine(InStream(items, join.stream), join.foreignKey, primary, join.key)
  }

  lemma {:induction false} MatchingIsGenuine(items: seq<PipelineItem>, foreignKey: string, primary: Record, key: string)
    requires HasText(primary, key)
    ensures Matching(items, foreignKey, StringField(primary, key)) == Genuine(items, foreignKey, primary, key)
  {
    if items != [] {
      MatchingIsGenuine(items[..|items| - 1], foreignKey, primary, key);
    }
  }

  lemma {:induction false} NothingGenuine(items: seq<PipelineItem>, foreignKey: string, primary: Record, key: string)
    requires key !in primary
    ensures Genuine(items, foreignKey, primary, key) == []
  {
    if items != [] {
      NothingGenuine(items[..|items| - 1], foreignKey, primary, key);
    }
  }

  ghost predicate AlwaysHonoured(config: AssembleConfig, join: AssembleJoin, primary: Record) {
    forall items :: Found(config, items, join.stream, StringField(primary, join.key)) == Wanted(items, join, primary)
  }

  /**
   * For a given primary record a join finds what its own definition asks for, on every input, exactly when it does not
   * name the primary stream, the last join on its stream has the same foreign key, and the primary's key is a non-empty
   * string; or when it names the primary stream and the primary lacks the key, so that there is nothing to find.
   */
  lemma JoinHonouredIff(config: AssembleConfig, k: nat, primary: Record)
    requires k < |config.joins|
    ensures var join := config.joins[k];
            AlwaysHonoured(config, join, primary) <==>
            if join.stream == config.primaryStream then join.key !in primary
            else LastForeignKey(config.joins, join.stream) == Some(join.foreignKey) && HasText(primary, join.key)
  {
    JoinIsIndexed(config.joins, k);
    var join := config.joins[k];
    if join.stream == config.primaryStream && join.key !in primary {
      forall items ensures Wanted(items, join, primary) == [] {
        NothingGenuine(InStream(items, join.stream), join.foreignKey, primary, join.key);
      }
    } else if join.stream != config.primaryStream && HasText(primary, join.key)
              && LastForeignKey(config.joins, join.stream) == Some(join.foreignKey) {
      forall items
        ensures Found(config, items, join.stream, StringField(primary, join.key)) == Wanted(items, join, primary)
      {
        MatchingIsGenuine(InStream(items, join.stream), join.foreignKey, primary, join.key);
      }
    } else {
      var items := NotHonoured(config, k, primary);
    }
  }

  lemma OneItem(item: PipelineItem, stream: string, foreignKey: string, key: string)
    ensures InStream([item], stream) == if StreamName(item) == stream then [item] else []
    ensures Matching([item], foreignKey, key) ==
            if item.record.Some? && StringField(item.record.value, foreignKey) == key
            then [Object(item.record.value)] else []
  {
    assert [item][..0] == [];
  }

  lemma OneGenuine(item: PipelineItem, foreignKey: string, primary: Record, key: string)
    ensures Genuine([item], foreignKey, primary, key) ==
            if item.record.Some? && RawEqual(item.record.value, foreignKey, primary, key)
            then [Object(item.record.value)] else []
  {
    assert [item][..0] == [];
  }

  /** Otherwise one item is enough: one that carries the primary's key is missed, or one without any field is found. */
  lemma NotHonoured(config: AssembleConfig, k: nat, primary: Record) returns (items: seq<PipelineItem>)
    requires k < |config.joins|
    requires var join := config.joins[k];
             if join.stream == config.primaryStream then join.key in primary
             else LastForeignKey(config.joins, join.stream) != Some(join.foreignKey) || !HasText(primary, join.key)
    ensures var join := config.joins[k];
            Found(config, items, join.stream, StringField(primary, join.key)) != Wanted(items, join, primary)
  {
    var join := config.joins[k];
    JoinIsIndexed(config.joins, k);
    var record: Record := map[];
    if join.stream == config.primaryStream || HasText(primary, join.key) {
      record := map[join.foreignKey := primary[join.key]];
    }
    var item := PipelineItem("i", "", "", "", Some(record), Some(join.stream));
    items := [item];
    FoundOne(config, item, record, join, StringField(primary, join.key));
    WantedOne(item, record, join, primary);
  }

  lemma FoundOne(config: AssembleConfig, item: PipelineItem, record: Record, join: AssembleJoin, key: string)
    requires item.record == Some(record) && item.stream == Some(join.stream)
    requires LastForeignKey(config.joins, join.stream).Some?
    ensures Found(config, [item], join.stream, key) ==
            if join.stream != config.primaryStream
               && StringField(record, LastForeignKey(config.joins, join.stream).value) == key
            then [Object(record)] else []
  {
    OneItem(item, join.stream, LastForeignKey(config.joins, join.stream).value, key);
  }

  lemma WantedOne(item: PipelineItem, record: Record, join: AssembleJoin, primary: Record)
    requires item.record == Some(record) && item.stream == Some(join.stream)
    ensures Wanted([item], join, primary) ==
            if RawEqual(record, join.foreignKey, primary, join.key) then [Object(record)] else []
  {
    OneItem(item, join.stream, "", "");
    OneGenuine(item, join.foreignKey, primary, join.key);
  }

  /** Numbers are all looked up under the empty key: a record is nested although its number is another one. */
  lemma NumbersJoin(key: string, foreignKey: string, x: Number, y: Number, item: PipelineItem)
    requires item.record == Some(map[foreignKey := Num(y)])
    ensures Matching([item], foreignKey, StringField(map[key := Num(x)], key)) == [Object(map[foreignKey := Num(y)])]
    ensures RawEqual(map[foreignKey := Num(y)], foreignKey, map[key := Num(x)], key) <==> x == y
  {
    OneItem(item, "", foreignKey, "");
  }

  /** A record is among the matches exactly when some item of the input carries it with that key. */
  lemma {:induction false} MatchingIff(items: seq<PipelineItem>, foreignKey: string, key: string, record: Record)
    ensures Object(record) in Matching(items, foreignKey, key) <==>
            StringField(record, foreignKey) == key && exists i :: 0 <= i < |items| && items[i].record == Some(record)
  {
    if items != [] {
      var init, last := items[..|items| - 1], items[|items| - 1];
      MatchingIff(init, foreignKey, key, record);
      assert forall i :: 0 <= i < |init| ==> init[i] == items[i];
      assert items[|items| - 1] == last;
    }
  }

  /** A successful join yields one output per primary item, in order, failing exactly when one has no record. */
  lemma {:induction false} OnePerPrimary(config: AssembleConfig, items: seq<PipelineItem>, primaries: seq<PipelineItem>)
    ensures var r := NestedLoopJoin(config, items, primaries);
            && (r.Err? <==> exists i :: 0 <= i < |primaries| && primaries[i].record.None?)
            && (r.Ok? ==> |r.value| == |primaries| && forall i :: 0 <= i < |primaries| ==>
                  primaries[i].record.Some? && r.value[i] == AssembledItem(config, items, primaries[i]))
  {
    if primaries != [] {
      var init := primaries[..|primaries| - 1];
      OnePerPrimary(config, items, init);
      assert forall i :: 0 <= i < |init| ==> init[i] == primaries[i];
    }
  }

  /** The value under a nested field comes from the last join that writes it, looked up with the primary's own key. */
  lemma {:induction false} NestedField(config: AssembleConfig, items: seq<PipelineItem>, primary: Record,
                                       joins: seq<AssembleJoin>, k: nat)
    requires k < |joins| && forall j :: k < j < |joins| ==> joins[j].nestAs != joins[k].nestAs
    ensures joins[k].nestAs in AssembledRecord(config, items, primary, joins)
    ensures var found := Found(config, items, joins[k].stream, StringField(primary, joins[k].key));
            var value := AssembledRecord(config, items, primary, joins)[joins[k].nestAs];
            if joins[k].collect then value == Array(found)
            else if |found| == 0 then value == Null
            else value == found[0]
  {
    if k < |joins| - 1 {
      NestedField(config, items, primary, joins[..|joins| - 1], k);
    }
  }
}
