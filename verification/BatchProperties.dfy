/** What one stage execution promises, whatever order its tasks complete in. */
module BatchProperties {
  import opened Seqs
  import opened Items
  import opened Batch

  /** What item `i` contributes to each of the three lists, and the id it settles. */
  function SuccessOf(stage: ResolvedStage, items: seq<PipelineItem>): nat -> multiset<StageItemSuccess> {
    (i: nat) =>
      if i < |items| && Retry(stage, items[i]).result.Ok?
      then multiset{StageItemSuccess(items[i].id, Retry(stage, items[i]).result.value)} else multiset{}
  }

  function SkipOf(stage: ResolvedStage, items: seq<PipelineItem>): nat -> multiset<StageItemSkipped> {
    (i: nat) =>
      if i < |items| && Retry(stage, items[i]).result.Err? && stage.skipOnError
      then multiset{StageItemSkipped(items[i].id, Retry(stage, items[i]).result.error)} else multiset{}
  }

  function FailureOf(stage: ResolvedStage, items: seq<PipelineItem>): nat -> multiset<StageItemFailure> {
    (i: nat) =>
      if i < |items| && Retry(stage, items[i]).result.Err? && !stage.skipOnError
      then multiset{StageItemFailure(items[i].id, Retry(stage, items[i]).result.error, AttemptLimit(stage.maxAttempts))}
      else multiset{}
  }

  lemma FailuresUseAllAttempts(stage: ResolvedStage, item: PipelineItem)
    ensures Retry(stage, item).result.Err? ==> Retry(stage, item).attempts == AttemptLimit(stage.maxAttempts)
  {
    RetryFromSettles(stage, item, 0);
  }

  function IdOf(items: seq<PipelineItem>): nat -> multiset<string> {
    (i: nat) => if i < |items| then multiset{items[i].id} else multiset{}
  }

  /** The input ids an outcome accounts for. */
  function SettledIds(o: Outcome): multiset<string> {
    SuccessIdBag(o.successes) + SkipIdBag(o.skipped) + FailureIdBag(o.failures)
  }

  /** The ids in each of the three lists. */
  function SuccessIdBag(list: seq<StageItemSuccess>): multiset<string> {
    Sum(list, (s: StageItemSuccess) => multiset{s.itemId})
  }

  function SkipIdBag(list: seq<StageItemSkipped>): multiset<string> {
    Sum(list, (s: StageItemSkipped) => multiset{s.itemId})
  }

  function FailureIdBag(list: seq<StageItemFailure>): multiset<string> {
    Sum(list, (s: StageItemFailure) => multiset{s.itemId})
  }

  lemma SuccessIdPush(list: seq<StageItemSuccess>, s: StageItemSuccess)
    ensures SuccessIdBag(list + [s]) == SuccessIdBag(list) + multiset{s.itemId}
  {
    SumPush(list, s, (s: StageItemSuccess) => multiset{s.itemId});
  }

  lemma SkipIdPush(list: seq<StageItemSkipped>, s: StageItemSkipped)
    ensures SkipIdBag(list + [s]) == SkipIdBag(list) + multiset{s.itemId}
  {
    SumPush(list, s, (s: StageItemSkipped) => multiset{s.itemId});
  }

  lemma FailureIdPush(list: seq<StageItemFailure>, f: StageItemFailure)
    ensures FailureIdBag(list + [f]) == FailureIdBag(list) + multiset{f.itemId}
  {
    SumPush(list, f, (s: StageItemFailure) => multiset{s.itemId});
  }

  lemma RecordedIds(o: Outcome, item: PipelineItem, r: RetryResult, skipOnError: bool)
    ensures SettledIds(Recorded(o, item, r, skipOnError)) == SettledIds(o) + multiset{item.id}
  {
    match r.result
    case Ok(outputs) => SuccessIdPush(o.successes, StageItemSuccess(item.id, outputs));
    case Err(e) =>
      SkipIdPush(o.skipped, StageItemSkipped(item.id, e));
      FailureIdPush(o.failures, StageItemFailure(item.id, e, r.attempts));
  }

  lemma SplitOrder(order: seq<nat>, n: nat)
    requires order != [] && IndicesBelow(order, n)
    ensures IndicesBelow(order[..|order| - 1], n) && order[|order| - 1] < n
  {
  }

  /** One more settled item adds to exactly one list. */
  lemma RecordedLists(o: Outcome, item: PipelineItem, r: RetryResult, skipOnError: bool)
    ensures var after := Recorded(o, item, r, skipOnError);
            && multiset(after.successes) == multiset(o.successes) +
               (if r.result.Ok? then multiset{StageItemSuccess(item.id, r.result.value)} else multiset{})
            && multiset(after.skipped) == multiset(o.skipped) +
               (if r.result.Err? && skipOnError then multiset{StageItemSkipped(item.id, r.result.error)}
                else multiset{})
            && multiset(after.failures) == multiset(o.failures) +
               (if r.result.Err? && !skipOnError then multiset{StageItemFailure(item.id, r.result.error, r.attempts)}
                else multiset{})
  {
  }

  lemma CollectedLast(stage: ResolvedStage, items: seq<PipelineItem>, order: seq<nat>)
    requires order != [] && IndicesBelow(order, |items|)
    ensures IndicesBelow(order[..|order| - 1], |items|) && order[|order| - 1] < |items|
    ensures var before, after := Collected(stage, items, order[..|order| - 1]), Collected(stage, items, order);
            var i := order[|order| - 1];
            && multiset(after.successes) == multiset(before.successes) + SuccessOf(stage, items)(i)
            && multiset(after.skipped) == multiset(before.skipped) + SkipOf(stage, items)(i)
            && multiset(after.failures) == multiset(before.failures) + FailureOf(stage, items)(i)
  {
    SplitOrder(order, |items|);
    var item, before := items[order[|order| - 1]], Collected(stage, items, order[..|order| - 1]);
    FailuresUseAllAttempts(stage, item);
    RecordedLists(before, item, Retry(stage, item), stage.skipOnError);
  }

  lemma CollectedLastId(stage: ResolvedStage, items: seq<PipelineItem>, order: seq<nat>)
    requires order != [] && IndicesBelow(order, |items|)
    ensures SettledIds(Collected(stage, items, order)) ==
            SettledIds(Collected(stage, items, order[..|order| - 1])) + IdOf(items)(order[|order| - 1])
  {
    SplitOrder(order, |items|);
    var i := order[|order| - 1];
    RecordedIds(Collected(stage, items, order[..|order| - 1]), items[i], Retry(stage, items[i]), stage.skipOnError);
  }

  /** Each list holds the contributions of the joined items; failures carry the full attempt count. */
  lemma {:induction false} CollectedSums(stage: ResolvedStage, items: seq<PipelineItem>, order: seq<nat>)
    requires IndicesBelow(order, |items|)
    ensures multiset(Collected(stage, items, order).successes) ==
            Sum<nat, StageItemSuccess>(order, SuccessOf(stage, items))
    ensures multiset(Collected(stage, items, order).skipped) == Sum<nat, StageItemSkipped>(order, SkipOf(stage, items))
    ensures multiset(Collected(stage, items, order).failures) ==
            Sum<nat, StageItemFailure>(order, FailureOf(stage, items))
    ensures SettledIds(Collected(stage, items, order)) == Sum<nat, string>(order, IdOf(items))
  {
    if order != [] {
      CollectedLast(stage, items, order);
      CollectedLastId(stage, items, order);
      CollectedSums(stage, items, order[..|order| - 1]);
    }
  }

  /** Any two executions of a stage that end agree, up to the order within each list. */
  lemma ExecutionsAgree(stage: ResolvedStage, items: seq<PipelineItem>, a: seq<nat>, b: seq<nat>)
    requires IsPermutation(a, |items|) && IsPermutation(b, |items|)
    ensures var x, y := Collected(stage, items, a), Collected(stage, items, b);
            && multiset(x.successes) == multiset(y.successes)
            && multiset(x.skipped) == multiset(y.skipped)
            && multiset(x.failures) == multiset(y.failures)
  {
    CollectedSums(stage, items, a);
    CollectedSums(stage, items, b);
    SumPermutation<nat, StageItemSuccess>(a, b, SuccessOf(stage, items));
    SumPermutation<nat, StageItemSkipped>(a, b, SkipOf(stage, items));
    SumPermutation<nat, StageItemFailure>(a, b, FailureOf(stage, items));
  }

  lemma IdsInOrder(items: seq<PipelineItem>)
    ensures Sum<nat, string>(Range(|items|), IdOf(items)) == multiset(ItemIds(items))
  {
    var g := (x: PipelineItem) => multiset{x.id};
    SumByIndex<PipelineItem, string>(items, |items|, IdOf(items), g);
    assert items[..|items|] == items;
    SumOfIds(items, ItemIds(items), g);
  }

  /** Every input id is accounted for exactly as often as it occurs among the inputs. */
  lemma NothingLostOrRepeated(stage: ResolvedStage, items: seq<PipelineItem>, order: seq<nat>)
    requires IsPermutation(order, |items|)
    ensures SettledIds(Collected(stage, items, order)) == multiset(ItemIds(items))
  {
    var r := Range(|items|);
    CollectedSums(stage, items, order);
    SumPermutation<nat, string>(order, r, IdOf(items));
    IdsInOrder(items);
  }

  /** `skip_on_error` decides which list stays empty, and a recorded failure used every attempt allowed. */
  lemma {:induction false} Classification(stage: ResolvedStage, items: seq<PipelineItem>, order: seq<nat>)
    requires IndicesBelow(order, |items|)
    ensures var o := Collected(stage, items, order);
            && (if stage.skipOnError then o.failures == [] else o.skipped == [])
            && (forall f <- o.failures ::
                  if stage.maxAttempts <= 1 then f.attempts == 1 else f.attempts == stage.maxAttempts)
  {
    if order != [] {
      SplitOrder(order, |items|);
      Classification(stage, items, order[..|order| - 1]);
      FailuresUseAllAttempts(stage, items[order[|order| - 1]]);
    }
  }

  lemma {:induction false} SumOfIds<T>(s: seq<T>, ids: seq<string>, f: T -> multiset<string>)
    requires |s| == |ids| && forall i :: 0 <= i < |s| ==> f(s[i]) == multiset{ids[i]}
    ensures Sum(s, f) == multiset(ids)
  {
    if s != [] {
      var n := |s| - 1;
      SumOfIds(s[..n], ids[..n], f);
      assert ids == ids[..n] + [ids[n]];
    }
  }

  /** A batch stage accounts for every input too, and loses its outputs exactly when it had no input to carry them. */
  lemma BatchAccounts(stage: ResolvedStage, items: seq<PipelineItem>)
    ensures SettledIds(BatchOutcome(stage, items)) == multiset(ItemIds(items))
    ensures stage.processBatch(items).Ok? ==>
              Sum(BatchOutcome(stage, items).successes, (s: StageItemSuccess) => multiset(s.outputs)) ==
              if items == [] then multiset{} else multiset(stage.processBatch(items).value)
  {
    var o := BatchOutcome(stage, items);
    match stage.processBatch(items)
    case Ok(outputs) =>
      SuccessesSettle(o.successes, items);
      FirstCarriesAll(o.successes, outputs);
    case Err(e) =>
      if stage.skipOnError {
        SkipsSettle(o.skipped, items);
      } else {
        FailuresSettle(o.failures, items);
      }
  }

  lemma SuccessesSettle(list: seq<StageItemSuccess>, items: seq<PipelineItem>)
    requires |list| == |items| && forall i :: 0 <= i < |items| ==> list[i].itemId == items[i].id
    ensures SuccessIdBag(list) == multiset(ItemIds(items))
  {
    SumOfIds(list, ItemIds(items), (s: StageItemSuccess) => multiset{s.itemId});
  }

  lemma SkipsSettle(list: seq<StageItemSkipped>, items: seq<PipelineItem>)
    requires |list| == |items| && forall i :: 0 <= i < |items| ==> list[i].itemId == items[i].id
    ensures SkipIdBag(list) == multiset(ItemIds(items))
  {
    SumOfIds(list, ItemIds(items), (s: StageItemSkipped) => multiset{s.itemId});
  }

  lemma FailuresSettle(list: seq<StageItemFailure>, items: seq<PipelineItem>)
    requires |list| == |items| && forall i :: 0 <= i < |items| ==> list[i].itemId == items[i].id
    ensures FailureIdBag(list) == multiset(ItemIds(items))
  {
    SumOfIds(list, ItemIds(items), (s: StageItemFailure) => multiset{s.itemId});
  }

  lemma {:induction false} FirstCarriesAll(s: seq<StageItemSuccess>, outputs: seq<PipelineItem>)
    requires forall i :: 0 <= i < |s| ==> s[i].outputs == if i == 0 then outputs else []
    ensures Sum(s, (x: StageItemSuccess) => multiset(x.outputs)) == if s == [] then multiset{} else multiset(outputs)
  {
    if s != [] {
      FirstCarriesAll(s[..|s| - 1], outputs);
    }
  }

  lemma {:induction false} CollectedStage(stage: ResolvedStage, items: seq<PipelineItem>, order: seq<nat>)
    requires IndicesBelow(order, |items|)
    ensures Collected(stage, items, order).stageId == stage.id
  {
    if order != [] {
      CollectedStage(stage, items, order[..|order| - 1]);
    }
  }
}
