/** What enumerating and merging do to sources, items and counters. */
module RunnerProperties {
  import opened Seqs
  import opened Ids
  import opened Items
  import opened Batch
  import opened BatchProperties
  import opened Pool
  import opened State
  import opened RunnerModel
  import opened Protocol

  // -- Enumeration ---------------------------------------------------------------------------

  function ListedIds(items: seq<SourceItem>): set<string> {
    set item <- items :: item.id
  }

  /** The source's state holds exactly what its adapter listed: of several items with one id, the last. */
  ghost predicate HoldsListing(s: SourceState, items: seq<SourceItem>, source: string) {
    && s.itemsDiscovered == |items| && s.itemsAccepted == |items| && s.itemsSkippedUnchanged == 0
    && s.items.Keys == ListedIds(items)
    && forall j :: 0 <= j < |items| && LastWithId(items, j) ==> AsListed(s.items[items[j].id], items[j], source)
  }

  ghost predicate LastWithId(items: seq<SourceItem>, j: int)
    requires 0 <= j < |items|
  {
    forall k :: j < k < |items| ==> items[k].id != items[j].id
  }

  /** The item's state tells what was listed, and that nothing has been done with it. */
  ghost predicate AsListed(i: ItemState, item: SourceItem, source: string) {
    && i.displayName == item.displayName && i.sourceId == item.id && i.sourceName == source
    && i.contentHash == "" && i.status.Pending? && i.completedStages == []
  }

  lemma {:induction false} AddedStates(s: SourceState, items: seq<SourceItem>, source: string)
    ensures AddItems(s, items, source).itemsSkippedUnchanged == s.itemsSkippedUnchanged
    ensures forall j :: 0 <= j < |items| && LastWithId(items, j) ==>
              items[j].id in AddItems(s, items, source).items
              && AsListed(AddItems(s, items, source).items[items[j].id], items[j], source)
  {
    if items != [] {
      var n := |items| - 1;
      AddedStates(s, items[..n], source);
      forall j | 0 <= j < |items| && LastWithId(items, j)
        ensures items[j].id in AddItems(s, items, source).items
                && AsListed(AddItems(s, items, source).items[items[j].id], items[j], source)
      {
        if j < n {
          assert items[n].id != items[j].id;
          assert LastWithId(items[..n], j);
        }
      }
    }
  }

  lemma {:induction false} AddedIds(s: SourceState, items: seq<SourceItem>, source: string)
    ensures var r := AddItems(s, items, source);
            && r.itemsDiscovered == s.itemsDiscovered && r.itemsAccepted == s.itemsAccepted + |items|
            && r.items.Keys == s.items.Keys + ListedIds(items)
  {
    if items != [] {
      var init := items[..|items| - 1];
      AddedIds(s, init, source);
      assert items == init + [items[|items| - 1]];
      assert ListedIds(items) == ListedIds(init) + {items[|items| - 1].id};
    }
  }

  const NOTHING := Enumerated(map[], [], None)

  ghost predicate AllListed(list: seq<SourceSpec>, listing: Listing) {
    forall i :: 0 <= i < |list| ==> listing(list[i].name).Ok?
  }

  function Names(list: seq<SourceSpec>): set<string> {
    set source <- list :: source.name
  }

  /** The pool as the adapters' answers dictate it, source by source. */
  function PoolOf(list: seq<SourceSpec>, listing: Listing): seq<PipelineItem> {
    if list == [] then []
    else
      var last := list[|list| - 1];
      PoolOf(list[..|list| - 1], listing)
      + PoolItems(if listing(last.name).Ok? then listing(last.name).value else [], last)
  }

  /** How many items the sources before the `i`-th list. */
  function ListedBefore(list: seq<SourceSpec>, listing: Listing, i: nat): nat
    requires i <= |list|
  {
    if i == 0 then 0
    else
      ListedBefore(list, listing, i - 1)
      + if listing(list[i - 1].name).Ok? then |listing(list[i - 1].name).value| else 0
  }

  /** The pool item tells what was listed, under the name and the stream of its source, and has no record yet. */
  ghost predicate InPoolAs(x: PipelineItem, item: SourceItem, source: SourceSpec) {
    && x.id == item.id && x.displayName == item.displayName && x.mimeType == item.mimeType
    && x.sourceName == source.name && x.stream == source.stream && x.record.None?
  }

  lemma {:induction false} SameBefore(list: seq<SourceSpec>, listing: Listing, n: nat, i: nat)
    requires i <= n <= |list|
    ensures ListedBefore(list[..n], listing, i) == ListedBefore(list, listing, i)
  {
    if 0 < i {
      SameBefore(list, listing, n, i - 1);
    }
  }

  lemma {:induction false} PoolSize(list: seq<SourceSpec>, listing: Listing)
    ensures |PoolOf(list, listing)| == ListedBefore(list, listing, |list|)
  {
    if list != [] {
      var n := |list| - 1;
      PoolSize(list[..n], listing);
      SameBefore(list, listing, n, n);
    }
  }

  /** The last source's items end the pool. */
  lemma PoolSplit(list: seq<SourceSpec>, listing: Listing)
    requires list != []
    ensures var n := |list| - 1;
            && PoolOf(list[..n], listing) <= PoolOf(list, listing)
            && |PoolOf(list[..n], listing)| == ListedBefore(list, listing, n)
            && (listing(list[n].name).Ok? ==>
                  PoolOf(list, listing) == PoolOf(list[..n], listing) + PoolItems(listing(list[n].name).value, list[n]))
  {
    var n := |list| - 1;
    PoolSize(list[..n], listing);
    SameBefore(list, listing, n, n);
  }

  lemma ListedInPool(items: seq<SourceItem>, source: SourceSpec, j: nat)
    requires j < |items|
    ensures |PoolItems(items, source)| == |items| && InPoolAs(PoolItems(items, source)[j], items[j], source)
  {
  }

  /** The `j`-th item of the `i`-th source stands in the pool after all items of the sources before. */
  lemma {:induction false} PoolHolds(list: seq<SourceSpec>, listing: Listing, i: nat, j: nat)
    requires i < |list| && listing(list[i].name).Ok? && j < |listing(list[i].name).value|
    ensures ListedBefore(list, listing, i) + j < |PoolOf(list, listing)|
    ensures InPoolAs(PoolOf(list, listing)[ListedBefore(list, listing, i) + j], listing(list[i].name).value[j], list[i])
  {
    var n := |list| - 1;
    PoolSplit(list, listing);
    if i < n {
      PoolHolds(list[..n], listing, i, j);
      SameBefore(list, listing, n, i);
    } else {
      ListedInPool(listing(list[i].name).value, list[i], j);
    }
  }

  lemma SourceStep(e: Enumerated, source: SourceSpec, listing: Listing)
    ensures var r := EnumerateSource(e, source, listing);
            && (r.error.None? <==> e.error.None? && listing(source.name).Ok?)
            && (r.error.None? ==> r.pool == e.pool + PoolItems(listing(source.name).value, source))
  {
  }

  lemma AllListedPush(list: seq<SourceSpec>, listing: Listing)
    requires list != []
    ensures AllListed(list, listing) <==>
            AllListed(list[..|list| - 1], listing) && listing(list[|list| - 1].name).Ok?
  {
    var init := list[..|list| - 1];
    assert forall i :: 0 <= i < |init| ==> init[i] == list[i];
  }

  /** Enumeration fails exactly when some adapter does. */
  lemma {:induction false} ErrorIff(e: Enumerated, list: seq<SourceSpec>, listing: Listing)
    requires e.error.None?
    ensures EnumerateAll(e, list, listing).error.None? <==> AllListed(list, listing)
    ensures EnumerateAll(e, list, listing).error.None? ==>
            EnumerateAll(e, list, listing).pool == e.pool + PoolOf(list, listing)
  {
    if list == [] {
      assert e.pool + [] == e.pool;
    } else {
      var init, last := list[..|list| - 1], list[|list| - 1];
      ErrorIff(e, init, listing);
      AllListedPush(list, listing);
      SourceStep(EnumerateAll(e, init, listing), last, listing);
      if listing(last.name).Ok? {
        var more := PoolItems(listing(last.name).value, last);
        assert e.pool + PoolOf(init, listing) + more == e.pool + (PoolOf(init, listing) + more);
      }
    }
  }

  ghost predicate AllHeld(sources: Sources, list: seq<SourceSpec>, listing: Listing) {
    forall i :: 0 <= i < |list| ==>
      && list[i].name in sources && listing(list[i].name).Ok?
      && HoldsListing(sources[list[i].name], listing(list[i].name).value, list[i].name)
  }

  lemma AllHeldPush(sources: Sources, list: seq<SourceSpec>, listing: Listing, last: SourceSpec, s: SourceState)
    requires AllHeld(sources, list, listing) && last.name !in sources
    requires listing(last.name).Ok? && HoldsListing(s, listing(last.name).value, last.name)
    ensures AllHeld(sources[last.name := s], list + [last], listing)
  {
  }

  lemma EnumerateNew(e: Enumerated, source: SourceSpec, listing: Listing)
    requires e.error.None? && source.name !in e.sources && listing(source.name).Ok?
    ensures var e' := EnumerateSource(e, source, listing);
            && source.name in e'.sources && e'.sources == e.sources[source.name := e'.sources[source.name]]
            && HoldsListing(e'.sources[source.name], listing(source.name).value, source.name)
  {
    var items := listing(source.name).value;
    AddedIds(NO_SOURCE_STATE.(itemsDiscovered := |items|), items, source.name);
    AddedStates(NO_SOURCE_STATE.(itemsDiscovered := |items|), items, source.name);
  }

  /** Every listed item is in the pool, in order and under its source's stream, and in its source's state. */
  lemma {:induction false} EnumeratesEverything(list: seq<SourceSpec>, listing: Listing)
    requires DistinctSources(list) && AllListed(list, listing)
    ensures var e := EnumerateAll(NOTHING, list, listing);
            && e.error.None? && e.pool == PoolOf(list, listing)
            && e.sources.Keys == Names(list) && AllHeld(e.sources, list, listing)
  {
    ErrorIff(NOTHING, list, listing);
    if list != [] {
      var init, last := list[..|list| - 1], list[|list| - 1];
      SplitSources(list, listing);
      EnumeratesEverything(init, listing);
      var before := EnumerateAll(NOTHING, init, listing);
      EnumerateNew(before, last, listing);
      AllHeldPush(before.sources, init, listing, last, EnumerateSource(before, last, listing).sources[last.name]);
    }
  }

  lemma SplitSources(list: seq<SourceSpec>, listing: Listing)
    requires DistinctSources(list) && AllListed(list, listing) && list != []
    ensures var init, last := list[..|list| - 1], list[|list| - 1];
            && list == init + [last] && DistinctSources(init) && AllListed(init, listing) && listing(last.name).Ok?
            && last.name !in Names(init) && Names(list) == Names(init) + {last.name}
  {
    var init, last := list[..|list| - 1], list[|list| - 1];
    assert list == init + [last];
    assert forall i :: 0 <= i < |init| ==> init[i] == list[i];
  }

  // -- Incrementality ----------------------------------------------------------------------------

  /** The item's content hash is the one stored for its id, and not blank. */
  ghost predicate HasStoredHash(sources: Sources, previous: map<string, string>, n: string, id: string) {
    && n in sources && id in sources[n].items && id in previous
    && previous[id] != "" && sources[n].items[id].contentHash == previous[id]
  }

  /** The check marks exactly the items whose hash is stored, and changes nothing else of any item. */
  lemma MarkedIff(sources: Sources, previous: map<string, string>, n: string, id: string)
    requires n in sources && id in sources[n].items
    ensures n in Incremental(sources, previous) && id in Incremental(sources, previous)[n].items
    ensures var before, after := sources[n].items[id], Incremental(sources, previous)[n].items[id];
            && after == before.(status := after.status)
            && after.status == if HasStoredHash(sources, previous, n, id) then ItemStatus.Unchanged else before.status
  {
  }

  /** It counts them, and neither adds nor loses a source or an item. */
  lemma MarkedAreCounted(sources: Sources, previous: map<string, string>, n: string)
    requires n in sources
    ensures Incremental(sources, previous).Keys == sources.Keys
    ensures var before, after := sources[n], Incremental(sources, previous)[n];
            && after.items.Keys == before.items.Keys
            && after.itemsDiscovered == before.itemsDiscovered && after.itemsAccepted == before.itemsAccepted
            && after.itemsSkippedUnchanged == before.itemsSkippedUnchanged
               + |set id | id in before.items && HasStoredHash(sources, previous, n, id)|
  {
    assert (set id | id in sources[n].items && HasStoredHash(sources, previous, n, id)) ==
           set id | id in sources[n].items && IsUnchanged(id, sources[n].items[id], previous);
  }

  // -- Merging one result ------------------------------------------------------------------------

  function Repeat(stage: StageId, n: nat): seq<StageId> {
    seq(n, _ => stage)
  }

  function TimesSucceeded(list: seq<StageItemSuccess>, id: string): nat {
    if list == [] then 0
    else TimesSucceeded(list[..|list| - 1], id) + if list[|list| - 1].itemId == id then 1 else 0
  }

  lemma {:induction false} AfterSuccesses(sources: Sources, list: seq<StageItemSuccess>, stage: StageId, n: string,
                                          id: string)
    requires n in sources && id in sources[n].items
    ensures var was := sources[n].items[id];
            && n in MarkSuccesses(sources, list, stage) && id in MarkSuccesses(sources, list, stage)[n].items
            && MarkSuccesses(sources, list, stage)[n].items[id] ==
               was.(status := if id in SuccessIds(list) then ItemStatus.Completed else was.status,
                    completedStages := was.completedStages + Repeat(stage, TimesSucceeded(list, id)))
  {
    if list == [] {
      assert Repeat(stage, 0) == [];
    } else {
      var init, last := list[..|list| - 1], list[|list| - 1];
      AfterSuccesses(sources, init, stage, n, id);
      assert list == init + [last];
      SuccessIdsPush(init, last);
      assert Repeat(stage, TimesSucceeded(init, id) + 1) == Repeat(stage, TimesSucceeded(init, id)) + [stage];
    }
  }

  /** The status that the last skip, or the last failure, of this item leaves. */
  function SkipStatus(list: seq<StageItemSkipped>, stage: StageId, id: string): Option<ItemStatus> {
    if list == [] then None
    else
      var last := list[|list| - 1];
      if last.itemId == id then Some(ItemStatus.Skipped(stage.name, last.error.message))
      else SkipStatus(list[..|list| - 1], stage, id)
  }

  function FailStatus(list: seq<StageItemFailure>, stage: StageId, id: string): Option<ItemStatus> {
    if list == [] then None
    else
      var last := list[|list| - 1];
      if last.itemId == id then Some(ItemStatus.Failed(stage.name, last.error.message, last.attempts))
      else FailStatus(list[..|list| - 1], stage, id)
  }

  function Or(status: Option<ItemStatus>, was: ItemStatus): ItemStatus {
    if status.Some? then status.value else was
  }

  lemma {:induction false} AfterSkips(sources: Sources, list: seq<StageItemSkipped>, stage: StageId, n: string,
                                      id: string)
    requires n in sources && id in sources[n].items
    ensures n in MarkSkips(sources, list, stage) && id in MarkSkips(sources, list, stage)[n].items
    ensures var was, now := sources[n].items[id], MarkSkips(sources, list, stage)[n].items[id];
            now == was.(status := Or(SkipStatus(list, stage, id), was.status))
    ensures SkipStatus(list, stage, id).Some? <==> id in SkipIds(list)
  {
    if list != [] {
      var init, last := list[..|list| - 1], list[|list| - 1];
      AfterSkips(sources, init, stage, n, id);
      assert list == init + [last];
      SkipIdsPush(init, last);
    }
  }

  lemma {:induction false} AfterFailures(sources: Sources, list: seq<StageItemFailure>, stage: StageId, n: string,
                                         id: string)
    requires n in sources && id in sources[n].items
    ensures n in MarkFailures(sources, list, stage) && id in MarkFailures(sources, list, stage)[n].items
    ensures var was, now := sources[n].items[id], MarkFailures(sources, list, stage)[n].items[id];
            now == was.(status := Or(FailStatus(list, stage, id), was.status))
    ensures FailStatus(list, stage, id).Some? <==> id in FailureIds(list)
  {
    if list != [] {
      var init, last := list[..|list| - 1], list[|list| - 1];
      AfterFailures(sources, init, stage, n, id);
      assert list == init + [last];
      FailureIdsPush(init, last);
    }
  }

  /** How a result leaves an item: failures before skips before successes, and one stage record for each success. */
  function AfterResult(was: ItemState, o: Outcome, id: string): ItemState {
    was.(status := Or(FailStatus(o.failures, o.stageId, id),
                      Or(SkipStatus(o.skipped, o.stageId, id),
                         if id in SuccessIds(o.successes) then ItemStatus.Completed else was.status)),
         completedStages := was.completedStages + Repeat(o.stageId, TimesSucceeded(o.successes, id)))
  }

  lemma {:induction false} SucceededIff(list: seq<StageItemSuccess>, id: string)
    ensures id in SuccessIds(list) <==> 0 < TimesSucceeded(list, id)
  {
    if list != [] {
      SucceededIff(list[..|list| - 1], id);
      assert list == list[..|list| - 1] + [list[|list| - 1]];
      SuccessIdsPush(list[..|list| - 1], list[|list| - 1]);
    }
  }

  /**
   * What one merged result does to an item: nothing unless the result consumes it; otherwise its status tells the
   * outcome, and never that it is unchanged.
   */
  lemma ItemAfterMerge(sources: Sources, o: Outcome, n: string, id: string)
    requires n in sources && id in sources[n].items
    ensures n in MarkOutcome(sources, o) && id in MarkOutcome(sources, o)[n].items
    ensures var was, now := sources[n].items[id], MarkOutcome(sources, o)[n].items[id];
            && now == AfterResult(was, o, id)
            && (if id in Consumed(o) then now.status.Completed? || now.status.Skipped? || now.status.Failed?
                else now == was)
  {
    var first := MarkSuccesses(sources, o.successes, o.stageId);
    var second := MarkSkips(first, o.skipped, o.stageId);
    AfterSuccesses(sources, o.successes, o.stageId, n, id);
    AfterSkips(first, o.skipped, o.stageId, n, id);
    AfterFailures(second, o.failures, o.stageId, n, id);
    SettledStatus(sources[n].items[id], o, id);
  }

  lemma {:induction false} SkipStatusIs(list: seq<StageItemSkipped>, stage: StageId, id: string)
    ensures SkipStatus(list, stage, id).Some? <==> id in SkipIds(list)
    ensures SkipStatus(list, stage, id).Some? ==>
              SkipStatus(list, stage, id).value.Skipped? && SkipStatus(list, stage, id).value.stage == stage.name
  {
    if list != [] {
      SkipStatusIs(list[..|list| - 1], stage, id);
      assert list == list[..|list| - 1] + [list[|list| - 1]];
      SkipIdsPush(list[..|list| - 1], list[|list| - 1]);
    }
  }

  lemma {:induction false} FailStatusIs(list: seq<StageItemFailure>, stage: StageId, id: string)
    ensures FailStatus(list, stage, id).Some? <==> id in FailureIds(list)
    ensures FailStatus(list, stage, id).Some? ==>
              FailStatus(list, stage, id).value.Failed? && FailStatus(list, stage, id).value.stage == stage.name
  {
    if list != [] {
      FailStatusIs(list[..|list| - 1], stage, id);
      assert list == list[..|list| - 1] + [list[|list| - 1]];
      FailureIdsPush(list[..|list| - 1], list[|list| - 1]);
    }
  }

  /** The status a result gives an item it consumes: Completed, or one that names the stage. */
  predicate GivenBy(status: ItemStatus, stage: StageId) {
    || status.Completed?
    || (status.Skipped? && status.stage == stage.name)
    || (status.Failed? && status.stage == stage.name)
  }

  lemma SettledStatus(was: ItemState, o: Outcome, id: string)
    ensures if id in Consumed(o) then GivenBy(AfterResult(was, o, id).status, o.stageId)
            else AfterResult(was, o, id) == was
    ensures id in Consumed(o) && AfterResult(was, o, id).status.Completed? ==> 0 < TimesSucceeded(o.successes, id)
  {
    SucceededIff(o.successes, id);
    SkipStatusIs(o.skipped, o.stageId, id);
    FailStatusIs(o.failures, o.stageId, id);
    if id !in Consumed(o) {
      assert was.completedStages + Repeat(o.stageId, 0) == was.completedStages;
    }
  }

  // -- Two results, either way round ---------------------------------------------------------------

  lemma RepeatsDiffer(before: seq<StageId>, a: StageId, m: nat, b: StageId, n: nat)
    requires a != b && 0 < m && 0 < n
    ensures before + Repeat(a, m) + Repeat(b, n) != before + Repeat(b, n) + Repeat(a, m)
  {
    assert (before + Repeat(a, m) + Repeat(b, n))[|before|] == a;
    assert (before + Repeat(b, n) + Repeat(a, m))[|before|] == b;
  }

  lemma SettleBoth(was: ItemState, r: Outcome, s: Outcome, id: string)
    requires r.stageId != s.stageId
    ensures AfterResult(AfterResult(was, r, id), s, id) == AfterResult(AfterResult(was, s, id), r, id) <==>
            id !in Consumed(r) || id !in Consumed(s)
  {
    var first, second := AfterResult(was, r, id), AfterResult(was, s, id);
    SettledStatus(was, r, id);
    SettledStatus(was, s, id);
    SettledStatus(first, s, id);
    SettledStatus(second, r, id);
    if id in Consumed(r) && id in Consumed(s) {
      var one, other := AfterResult(first, s, id), AfterResult(second, r, id);
      assert r.stageId.name != s.stageId.name;
      assert GivenBy(one.status, s.stageId) && GivenBy(other.status, r.stageId);
      if one.status.Completed? && other.status.Completed? {
        RepeatsDiffer(was.completedStages, r.stageId, TimesSucceeded(r.successes, id), s.stageId,
          TimesSucceeded(s.successes, id));
      }
    }
  }

  ghost predicate SharesNoItem(sources: Sources, r: Outcome, s: Outcome) {
    forall n, id :: n in sources && id in sources[n].items ==> id !in Consumed(r) || id !in Consumed(s)
  }

  lemma MarkedOnce(sources: Sources, o: Outcome)
    ensures MarkOutcome(sources, o).Keys == sources.Keys
    ensures forall n :: n in sources ==> MarkOutcome(sources, o)[n] == MarkedSource(sources[n], o)
  {
    var marked := MarkOutcome(sources, o);
    OutcomeShape(sources, o);
    forall n | n in sources ensures marked[n] == MarkedSource(sources[n], o) {
      forall id | id in sources[n].items ensures marked[n].items[id] == AfterResult(sources[n].items[id], o, id) {
        ItemAfterMerge(sources, o, n, id);
      }
      assert marked[n].items == MarkedSource(sources[n], o).items;
    }
  }

  function MarkedSource(s: SourceState, o: Outcome): SourceState {
    s.(items := map id <- s.items :: AfterResult(s.items[id], o, id))
  }

  /** `after` differs from `before` only inside items. */
  ghost predicate OnlyItems(before: Sources, after: Sources) {
    && after.Keys == before.Keys
    && forall n :: n in before ==>
         after[n] == before[n].(items := after[n].items) && after[n].items.Keys == before[n].items.Keys
  }

  lemma {:induction false} SuccessShape(sources: Sources, list: seq<StageItemSuccess>, stage: StageId)
    ensures OnlyItems(sources, MarkSuccesses(sources, list, stage))
  {
    if list != [] {
      SuccessShape(sources, list[..|list| - 1], stage);
    }
  }

  lemma {:induction false} SkipShape(sources: Sources, list: seq<StageItemSkipped>, stage: StageId)
    ensures OnlyItems(sources, MarkSkips(sources, list, stage))
  {
    if list != [] {
      SkipShape(sources, list[..|list| - 1], stage);
    }
  }

  lemma {:induction false} FailureShape(sources: Sources, list: seq<StageItemFailure>, stage: StageId)
    ensures OnlyItems(sources, MarkFailures(sources, list, stage))
  {
    if list != [] {
      FailureShape(sources, list[..|list| - 1], stage);
    }
  }

  lemma OutcomeShape(sources: Sources, o: Outcome)
    ensures OnlyItems(sources, MarkOutcome(sources, o))
  {
    SuccessShape(sources, o.successes, o.stageId);
    SkipShape(MarkSuccesses(sources, o.successes, o.stageId), o.skipped, o.stageId);
    FailureShape(MarkSkips(MarkSuccesses(sources, o.successes, o.stageId), o.skipped, o.stageId), o.failures,
      o.stageId);
  }

  /**
   * The results of two stages leave the same item states whichever is merged first exactly when they share no known
   * item: one consumed by both keeps the status of the later, or records the stages in another order.
   */
  lemma StatesCommuteIff(sources: Sources, r: Outcome, s: Outcome)
    requires r.stageId != s.stageId
    ensures MarkOutcome(MarkOutcome(sources, r), s) == MarkOutcome(MarkOutcome(sources, s), r) <==>
            SharesNoItem(sources, r, s)
  {
    MarkedTwice(sources, r, s);
    MarkedTwice(sources, s, r);
    var one, other := MarkOutcome(MarkOutcome(sources, r), s), MarkOutcome(MarkOutcome(sources, s), r);
    forall n | n in sources ensures one[n] == other[n] <==> NoneShared(sources[n].items.Keys, r, s) {
      SourceCommutes(sources[n], r, s);
    }
    if one == other {
      forall n, id | n in sources && id in sources[n].items ensures id !in Consumed(r) || id !in Consumed(s) {
        assert one[n] == other[n];
      }
    }
  }

  lemma MarkedTwice(sources: Sources, r: Outcome, s: Outcome)
    ensures MarkOutcome(MarkOutcome(sources, r), s).Keys == sources.Keys
    ensures forall n :: n in sources ==>
            MarkOutcome(MarkOutcome(sources, r), s)[n] == MarkedSource(MarkedSource(sources[n], r), s)
  {
    MarkedOnce(sources, r);
    MarkedOnce(MarkOutcome(sources, r), s);
  }

  ghost predicate NoneShared(ids: set<string>, r: Outcome, s: Outcome) {
    forall id :: id in ids ==> id !in Consumed(r) || id !in Consumed(s)
  }

  function Twice(items: map<string, ItemState>, r: Outcome, s: Outcome): map<string, ItemState> {
    map id <- items :: AfterResult(AfterResult(items[id], r, id), s, id)
  }

  lemma TwiceMarked(source: SourceState, r: Outcome, s: Outcome)
    ensures MarkedSource(MarkedSource(source, r), s) == source.(items := Twice(source.items, r, s))
  {
    assert MarkedSource(MarkedSource(source, r), s).items == Twice(source.items, r, s);
  }

  lemma TwiceCommutes(items: map<string, ItemState>, r: Outcome, s: Outcome)
    requires r.stageId != s.stageId
    ensures Twice(items, r, s) == Twice(items, s, r) <==> NoneShared(items.Keys, r, s)
  {
    forall id | id in items
      ensures Twice(items, r, s)[id] == Twice(items, s, r)[id] <==> id !in Consumed(r) || id !in Consumed(s)
    {
      SettleBoth(items[id], r, s, id);
    }
  }

  lemma SourceCommutes(source: SourceState, r: Outcome, s: Outcome)
    requires r.stageId != s.stageId
    ensures MarkedSource(MarkedSource(source, r), s) == MarkedSource(MarkedSource(source, s), r) <==>
            NoneShared(source.items.Keys, r, s)
  {
    TwiceMarked(source, r, s);
    TwiceMarked(source, s, r);
    TwiceCommutes(source.items, r, s);
  }

  lemma {:induction false} OneEach<T>(list: seq<T>, f: T -> multiset<string>)
    requires forall i :: 0 <= i < |list| ==> |f(list[i])| == 1
    ensures |Sum(list, f)| == |list|
  {
    if list != [] {
      OneEach(list[..|list| - 1], f);
    }
  }

  /** The stage's counters grow by exactly the number of items it was given. */
  lemma CountersAddUp(s: StageState, o: Outcome, items: seq<PipelineItem>)
    requires Accounts(o, items)
    ensures var r := MergedStage(s, o);
            r.itemsProcessed + r.itemsFailed + r.itemsSkipped ==
            s.itemsProcessed + s.itemsFailed + s.itemsSkipped + |items|
    ensures MergedStage(s, o).status == StageStatus.Completed <==> o.failures == []
  {
    OneEach(o.successes, (x: StageItemSuccess) => multiset{x.itemId});
    OneEach(o.skipped, (x: StageItemSkipped) => multiset{x.itemId});
    OneEach(o.failures, (x: StageItemFailure) => multiset{x.itemId});
    assert |SettledIds(o)| == |multiset(ItemIds(items))| == |items|;
  }
}
