/** Batch execution: one stage over its items, with bounded concurrency and retries. */
module Batch {
  import opened Seqs
  import opened Ids
  import opened Items

  /** `process(item, k)` is what the handler answers on its k-th call for the item. */
  datatype ResolvedStage = ResolvedStage(
    id: StageId,
    requiresBatch: bool,
    process: (PipelineItem, nat) -> ItemResult,
    processBatch: seq<PipelineItem> -> ItemResult,
    maxAttempts: nat,
    skipOnError: bool)

  // -- Retry ------------------------------------------------------------------

  /** Total attempts allowed: `with_max_times(max_attempts.saturating_sub(1))` retries after the first call. */
  function AttemptLimit(maxAttempts: nat): (n: nat)
    ensures 1 <= n && maxAttempts <= n && (n == 1 || n == maxAttempts)
  {
    if maxAttempts == 0 then 1 else maxAttempts
  }

  datatype RetryResult = RetryResult(result: ItemResult, attempts: nat)

  /**
   * The attempt that settles the item: its first success, or the last attempt allowed, which is the first when the
   * maximum is 0.
   */
  ghost predicate Settles(stage: ResolvedStage, item: PipelineItem, r: RetryResult) {
    && 1 <= r.attempts && (r.attempts == 1 || r.attempts <= stage.maxAttempts)
    && r.result == stage.process(item, r.attempts - 1)
    && (forall k :: 0 <= k < r.attempts - 1 ==> stage.process(item, k).Err?)
    && (r.result.Err? ==> stage.maxAttempts <= r.attempts)
  }

  function RetryFrom(stage: ResolvedStage, item: PipelineItem, k: nat): RetryResult
    requires k < AttemptLimit(stage.maxAttempts)
    decreases AttemptLimit(stage.maxAttempts) - k
  {
    var answer := stage.process(item, k);
    if answer.Ok? || k + 1 == AttemptLimit(stage.maxAttempts) then RetryResult(answer, k + 1)
    else RetryFrom(stage, item, k + 1)
  }

  function Retry(stage: ResolvedStage, item: PipelineItem): RetryResult {
    RetryFrom(stage, item, 0)
  }

  lemma {:induction false} RetryFromSettles(stage: ResolvedStage, item: PipelineItem, k: nat)
    requires k < AttemptLimit(stage.maxAttempts)
    requires forall j :: 0 <= j < k ==> stage.process(item, j).Err?
    ensures Settles(stage, item, RetryFrom(stage, item, k))
    decreases AttemptLimit(stage.maxAttempts) - k
  {
    var answer := stage.process(item, k);
    if answer.Err? && k + 1 != AttemptLimit(stage.maxAttempts) {
      RetryFromSettles(stage, item, k + 1);
    }
  }

  /** Exactly one outcome settles an item. */
  lemma RetrySettles(stage: ResolvedStage, item: PipelineItem, r: RetryResult)
    ensures Settles(stage, item, r) <==> r == Retry(stage, item)
  {
    RetryFromSettles(stage, item, 0);
    var s := Retry(stage, item);
    if Settles(stage, item, r) {
      var i: nat, j: nat := r.attempts - 1, s.attempts - 1;
      assert i < j ==> stage.process(item, i).Err?;
      assert j < i ==> stage.process(item, j).Err?;
    }
  }

  method ExecuteWithRetry(stage: ResolvedStage, item: PipelineItem) returns (r: RetryResult)
    ensures Settles(stage, item, r)
  {
    var attempts := 0;
    var retriesLeft := AttemptLimit(stage.maxAttempts) - 1;
    while true
      invariant attempts + retriesLeft + 1 == AttemptLimit(stage.maxAttempts) && 0 <= retriesLeft
      invariant forall j :: 0 <= j < attempts ==> stage.process(item, j).Err?
      decreases retriesLeft
    {
      attempts := attempts + 1;
      var answer := stage.process(item, attempts - 1);
      if answer.Ok? || retriesLeft == 0 {
        return RetryResult(answer, attempts);
      }
      retriesLeft := retriesLeft - 1;
    }
  }

  // -- Stage results -------------------------------------------------------------

  datatype StageItemSuccess = StageItemSuccess(itemId: string, outputs: seq<PipelineItem>)
  datatype StageItemSkipped = StageItemSkipped(itemId: string, error: StageError)
  datatype StageItemFailure = StageItemFailure(itemId: string, error: StageError, attempts: nat)

  /** The contents of a stage result. */
  datatype Outcome = Outcome(
    stageId: StageId,
    successes: seq<StageItemSuccess>,
    skipped: seq<StageItemSkipped>,
    failures: seq<StageItemFailure>)

  class StageResult {
    const stageId: StageId
    var successes: seq<StageItemSuccess>
    var skipped: seq<StageItemSkipped>
    var failures: seq<StageItemFailure>

    function Contents(): Outcome
      reads this
    {
      Outcome(stageId, successes, skipped, failures)
    }

    constructor (stageId: StageId)
      ensures Contents() == Outcome(stageId, [], [], [])
    {
      this.stageId := stageId;
      successes, skipped, failures := [], [], [];
    }

    method RecordSuccess(itemId: string, outputs: seq<PipelineItem>)
      modifies this
      ensures Contents() == old(Contents()).(successes := old(successes) + [StageItemSuccess(itemId, outputs)])
    {
      successes := successes + [StageItemSuccess(itemId, outputs)];
    }

    method RecordSkipped(itemId: string, error: StageError)
      modifies this
      ensures Contents() == old(Contents()).(skipped := old(skipped) + [StageItemSkipped(itemId, error)])
    {
      skipped := skipped + [StageItemSkipped(itemId, error)];
    }

    method RecordFailure(itemId: string, error: StageError, attempts: nat)
      modifies this
      ensures Contents() == old(Contents()).(failures := old(failures) + [StageItemFailure(itemId, error, attempts)])
    {
      failures := failures + [StageItemFailure(itemId, error, attempts)];
    }
  }

  /** How one settled item enters the result. */
  function Recorded(o: Outcome, item: PipelineItem, r: RetryResult, skipOnError: bool): Outcome {
    match r.result
    case Ok(outputs) => o.(successes := o.successes + [StageItemSuccess(item.id, outputs)])
    case Err(e) =>
      if skipOnError then o.(skipped := o.skipped + [StageItemSkipped(item.id, e)])
      else o.(failures := o.failures + [StageItemFailure(item.id, e, r.attempts)])
  }

  /** The result of joining the tasks of `items` in the given order. */
  function Collected(stage: ResolvedStage, items: seq<PipelineItem>, order: seq<nat>): Outcome
    requires IndicesBelow(order, |items|)
  {
    if order == [] then Outcome(stage.id, [], [], [])
    else
      var init, last := order[..|order| - 1], order[|order| - 1];
      Recorded(Collected(stage, items, init), items[last], Retry(stage, items[last]), stage.skipOnError)
  }

  // -- Concurrency -----------------------------------------------------------------

  /**
   * `next` tasks are spawned; those in `running` hold a permit; `finished` ones await the join; `joined` are
   * collected.
   */
  datatype Tasks = Tasks(next: nat, running: set<nat>, finished: set<nat>, joined: seq<nat>)

  ghost predicate Init(s: Tasks) {
    s == Tasks(0, {}, {}, [])
  }

  /** Acquire a permit and spawn the next item's task. */
  ghost predicate Spawn(n: nat, permits: nat, s: Tasks, t: Tasks) {
    s.next < n && |s.running| < permits && t == s.(next := s.next + 1, running := s.running + {s.next})
  }

  /** A running task settles and drops its permit. */
  ghost predicate Finish(i: nat, s: Tasks, t: Tasks) {
    i in s.running && t == s.(running := s.running - {i}, finished := s.finished + {i})
  }

  /** Once every item is spawned, collect a finished task. */
  ghost predicate Join(n: nat, i: nat, s: Tasks, t: Tasks) {
    s.next == n && i in s.finished && t == s.(finished := s.finished - {i}, joined := s.joined + [i])
  }

  ghost predicate Step(n: nat, permits: nat, s: Tasks, t: Tasks) {
    Spawn(n, permits, s, t) || (exists i :: Finish(i, s, t)) || exists i :: Join(n, i, s, t)
  }

  ghost predicate Done(n: nat, s: Tasks) {
    s.next == n && s.running == {} && s.finished == {}
  }

  /** Every spawned task is in exactly one place, and the permits bound those in flight. */
  ghost predicate TasksInvariant(n: nat, permits: nat, s: Tasks) {
    && s.next <= n && |s.running| <= permits
    && s.running !! s.finished && Distinct(s.joined)
    && (forall i :: 0 <= i < s.next <==> i in s.running || i in s.finished || i in s.joined)
    && (forall i :: i in s.joined ==> i !in s.running && i !in s.finished)
  }

  function Work(n: nat, s: Tasks): int {
    3 * (n - s.next) + 2 * |s.running| + |s.finished|
  }

  lemma SpawnKeeps(n: nat, permits: nat, s: Tasks, t: Tasks)
    requires TasksInvariant(n, permits, s) && Spawn(n, permits, s, t)
    ensures TasksInvariant(n, permits, t) && Work(n, t) < Work(n, s)
  {
    assert s.next !in s.running && s.next !in s.finished && s.next !in s.joined;
  }

  lemma FinishKeeps(n: nat, permits: nat, i: nat, s: Tasks, t: Tasks)
    requires TasksInvariant(n, permits, s) && Finish(i, s, t)
    ensures TasksInvariant(n, permits, t) && Work(n, t) < Work(n, s)
  {
    assert |t.running| == |s.running| - 1 && |t.finished| == |s.finished| + 1;
  }

  lemma JoinKeeps(n: nat, permits: nat, i: nat, s: Tasks, t: Tasks)
    requires TasksInvariant(n, permits, s) && Join(n, i, s, t)
    ensures TasksInvariant(n, permits, t) && Work(n, t) < Work(n, s)
  {
    assert |t.finished| == |s.finished| - 1;
    PushBack(s.joined, i);
    assert forall x :: x in t.joined <==> x in s.joined || x == i;
  }

  lemma StepKeepsInvariant(n: nat, permits: nat, s: Tasks, t: Tasks)
    requires TasksInvariant(n, permits, s) && Step(n, permits, s, t)
    ensures TasksInvariant(n, permits, t) && Work(n, t) < Work(n, s)
  {
    if Spawn(n, permits, s, t) {
      SpawnKeeps(n, permits, s, t);
    } else if i: nat :| Finish(i, s, t) {
      FinishKeeps(n, permits, i, s, t);
    } else {
      var i: nat :| Join(n, i, s, t);
      JoinKeeps(n, permits, i, s, t);
    }
  }

  /** An execution: every state follows from the one before. */
  ghost predicate IsRun(n: nat, permits: nat, run: seq<Tasks>) {
    0 < |run| && Init(run[0]) && forall k :: 0 <= k < |run| - 1 ==> Step(n, permits, run[k], run[k + 1])
  }

  lemma {:induction false} RunInvariant(n: nat, permits: nat, run: seq<Tasks>, k: nat)
    requires IsRun(n, permits, run) && k < |run|
    ensures TasksInvariant(n, permits, run[k]) && Work(n, run[k]) + k <= 3 * n
  {
    if 0 < k {
      RunInvariant(n, permits, run, k - 1);
      StepKeepsInvariant(n, permits, run[k - 1], run[k]);
    }
  }

  /** No interleaving exceeds the permits, and none has more than three steps per item. */
  lemma RunsAreBounded(n: nat, permits: nat, run: seq<Tasks>)
    requires IsRun(n, permits, run)
    ensures forall k :: 0 <= k < |run| ==> |run[k].running| <= permits
    ensures |run| <= 3 * n + 1
  {
    forall k | 0 <= k < |run| ensures |run[k].running| <= permits {
      RunInvariant(n, permits, run, k);
    }
    RunInvariant(n, permits, run, |run| - 1);
    assert 0 <= Work(n, run[|run| - 1]);
  }

  ghost predicate Stuck(n: nat, permits: nat, s: Tasks) {
    forall t :: !Step(n, permits, s, t)
  }

  /** With a permit to give, a run stops only when all items are collected; with none it stops before the first item. */
  lemma StopsOnlyWhenDone(n: nat, permits: nat, run: seq<Tasks>)
    requires IsRun(n, permits, run)
    ensures var s := run[|run| - 1]; Stuck(n, permits, s) <==> Done(n, s) || (permits == 0 && 0 < n)
  {
    var s := run[|run| - 1];
    RunInvariant(n, permits, run, |run| - 1);
    if permits == 0 && 0 < n {
      WithoutPermits(n, run, |run| - 1);
    } else if !Done(n, s) {
      var t := Progress(n, permits, s);
    }
  }

  lemma Progress(n: nat, permits: nat, s: Tasks) returns (t: Tasks)
    requires TasksInvariant(n, permits, s) && 0 < permits && !Done(n, s)
    ensures Step(n, permits, s, t)
  {
    if i :| i in s.running {
      t := s.(running := s.running - {i}, finished := s.finished + {i});
      assert Finish(i, s, t);
    } else if s.next < n {
      t := s.(next := s.next + 1, running := s.running + {s.next});
    } else {
      var i :| i in s.finished;
      t := s.(finished := s.finished - {i}, joined := s.joined + [i]);
      assert Join(n, i, s, t);
    }
  }

  lemma {:induction false} WithoutPermits(n: nat, run: seq<Tasks>, k: nat)
    requires IsRun(n, 0, run) && k < |run| && 0 < n
    ensures Init(run[k])
  {
    if 0 < k {
      WithoutPermits(n, run, k - 1);
    }
  }

  // -- The executor -------------------------------------------------------------------

  /** `order` lists the indices below `n`, each once. */
  ghost predicate IsPermutation(order: seq<nat>, n: nat) {
    multiset(order) == multiset(Range(n)) && IndicesBelow(order, n)
  }

  lemma DoneIsPermutation(n: nat, permits: nat, s: Tasks)
    requires TasksInvariant(n, permits, s) && Done(n, s) && IndicesBelow(s.joined, n)
    ensures IsPermutation(s.joined, n)
  {
    var r := Range(n);
    forall i: nat ensures i in s.joined <==> i in r {
      if i < n { assert r[i] == i; }
      assert i in s.joined <==> i < n;
    }
    assert Elements(s.joined) == Elements(r);
    SameElementsSameMultiset(s.joined, r);
  }

  /** Classifies one joined task. */
  method RecordSettled(stageResult: StageResult, item: PipelineItem, settled: RetryResult, skipOnError: bool)
    modifies stageResult
    ensures stageResult.Contents() == Recorded(old(stageResult.Contents()), item, settled, skipOnError)
  {
    match settled.result
    case Ok(outputs) => stageResult.RecordSuccess(item.id, outputs);
    case Err(e) =>
      if skipOnError {
        stageResult.RecordSkipped(item.id, e);
      } else {
        stageResult.RecordFailure(item.id, e, settled.attempts);
      }
  }

  /** The tasks of one execution, with what each is working on or has answered. */
  datatype Workers = Workers(next: nat, running: set<nat>, finished: map<nat, RetryResult>)

  ghost predicate Answers(stage: ResolvedStage, items: seq<PipelineItem>, w: Workers) {
    && (forall i :: i in w.running ==> i < |items|)
    && (forall i :: i in w.finished ==> i < |items| && w.finished[i] == Retry(stage, items[i]))
  }

  ghost function TasksOf(w: Workers, order: seq<nat>): Tasks {
    Tasks(w.next, w.running, w.finished.Keys, order)
  }

  method SpawnNext(stage: ResolvedStage, items: seq<PipelineItem>, concurrency: nat, w: Workers, ghost order: seq<nat>)
    returns (w': Workers)
    requires Answers(stage, items, w) && TasksInvariant(|items|, concurrency, TasksOf(w, order))
    requires w.next < |items| && |w.running| < concurrency
    ensures Answers(stage, items, w') && Step(|items|, concurrency, TasksOf(w, order), TasksOf(w', order))
  {
    w' := w.(next := w.next + 1, running := w.running + {w.next});
    assert Spawn(|items|, concurrency, TasksOf(w, order), TasksOf(w', order));
  }

  method FinishAny(stage: ResolvedStage, items: seq<PipelineItem>, concurrency: nat, w: Workers, ghost order: seq<nat>)
    returns (w': Workers)
    requires Answers(stage, items, w) && TasksInvariant(|items|, concurrency, TasksOf(w, order)) && w.running != {}
    ensures Answers(stage, items, w') && Step(|items|, concurrency, TasksOf(w, order), TasksOf(w', order))
  {
    var i :| i in w.running;
    var settled := ExecuteWithRetry(stage, items[i]);
    RetrySettles(stage, items[i], settled);
    w' := w.(running := w.running - {i}, finished := w.finished[i := settled]);
    assert Finish(i, TasksOf(w, order), TasksOf(w', order));
  }

  ghost predicate IndicesBelow(order: seq<nat>, n: nat) {
    forall k :: 0 <= k < |order| ==> order[k] < n
  }

  lemma CollectedNext(stage: ResolvedStage, items: seq<PipelineItem>, order: seq<nat>, i: nat)
    requires IndicesBelow(order, |items|) && i < |items|
    ensures IndicesBelow(order + [i], |items|)
    ensures Collected(stage, items, order + [i]) ==
            Recorded(Collected(stage, items, order), items[i], Retry(stage, items[i]), stage.skipOnError)
  {
    assert (order + [i])[..|order|] == order;
  }

  method JoinAny(stageResult: StageResult, stage: ResolvedStage, items: seq<PipelineItem>, concurrency: nat, w: Workers,
                 ghost order: seq<nat>)
    returns (w': Workers, ghost order': seq<nat>)
    requires Answers(stage, items, w) && TasksInvariant(|items|, concurrency, TasksOf(w, order))
    requires w.next == |items| && w.finished != map[] && IndicesBelow(order, |items|)
    requires stageResult.Contents() == Collected(stage, items, order)
    modifies stageResult
    ensures Answers(stage, items, w') && Step(|items|, concurrency, TasksOf(w, order), TasksOf(w', order'))
    ensures w'.next == w.next && IndicesBelow(order', |items|)
    ensures stageResult.Contents() == Collected(stage, items, order')
  {
    var i :| i in w.finished;
    CollectedNext(stage, items, order, i);
    RecordSettled(stageResult, items[i], w.finished[i], stage.skipOnError);
    w', order' := w.(finished := w.finished - {i}), order + [i];
    assert Join(|items|, i, TasksOf(w, order), TasksOf(w', order'));
  }

  /**
   * Runs a stage's items under every scheduling: each turn of the loop takes an arbitrary enabled step, and the
   * loop ends when none is enabled. `hung` reports the wait for a permit that never comes.
   */
  method ExecuteStageItems(stage: ResolvedStage, items: seq<PipelineItem>, concurrency: nat)
    returns (stageResult: StageResult, hung: bool, ghost order: seq<nat>)
    ensures fresh(stageResult)
    ensures hung <==> concurrency == 0 && items != []
    ensures !hung ==> IsPermutation(order, |items|) && stageResult.Contents() == Collected(stage, items, order)
  {
    stageResult := new StageResult(stage.id);
    var w := Workers(0, {}, map[]);
    order := [];
    while
      || (w.next < |items| && |w.running| < concurrency)
      || w.running != {}
      || (w.next == |items| && w.finished != map[])
      invariant TasksInvariant(|items|, concurrency, TasksOf(w, order)) && Answers(stage, items, w)
      invariant concurrency == 0 ==> w.next == 0
      invariant IndicesBelow(order, |items|)
      invariant stageResult.Contents() == Collected(stage, items, order)
      decreases Work(|items|, TasksOf(w, order))
    {
      ghost var before := TasksOf(w, order);
      if {
        case w.next < |items| && |w.running| < concurrency =>
          w := SpawnNext(stage, items, concurrency, w, order);
        case w.running != {} =>
          w := FinishAny(stage, items, concurrency, w, order);
        case w.next == |items| && w.finished != map[] =>
          w, order := JoinAny(stageResult, stage, items, concurrency, w, order);
      }
      StepKeepsInvariant(|items|, concurrency, before, TasksOf(w, order));
    }
    hung := w.next < |items|;
    if !hung {
      DoneIsPermutation(|items|, concurrency, TasksOf(w, order));
    }
  }

  // -- Batch stages ---------------------------------------------------------------------

  /** The first input carries all outputs; a batch error is charged to every input after one attempt. */
  function BatchOutcome(stage: ResolvedStage, items: seq<PipelineItem>): Outcome {
    match stage.processBatch(items)
    case Ok(outputs) =>
      Outcome(stage.id,
              seq(|items|, i requires 0 <= i < |items| =>
                StageItemSuccess(items[i].id, if i == 0 then outputs else [])),
              [], [])
    case Err(e) =>
      if stage.skipOnError then
        Outcome(stage.id, [], seq(|items|, i requires 0 <= i < |items| => StageItemSkipped(items[i].id, e)), [])
      else
        Outcome(stage.id, [], [], seq(|items|, i requires 0 <= i < |items| => StageItemFailure(items[i].id, e, 1)))
  }

  method ExecuteStageBatch(stage: ResolvedStage, items: seq<PipelineItem>) returns (stageResult: StageResult)
    ensures fresh(stageResult) && stageResult.Contents() == BatchOutcome(stage, items)
  {
    stageResult := new StageResult(stage.id);
    ghost var expected := BatchOutcome(stage, items);
    match stage.processBatch(items)
    case Ok(outputs) =>
      if items != [] {
        stageResult.RecordSuccess(items[0].id, outputs);
        for k := 1 to |items|
          invariant stageResult.Contents() == Outcome(stage.id, expected.successes[..k], [], [])
        {
          stageResult.RecordSuccess(items[k].id, []);
        }
      }
    case Err(e) =>
      for k := 0 to |items|
        invariant stageResult.Contents() ==
          if stage.skipOnError then Outcome(stage.id, [], expected.skipped[..k], [])
          else Outcome(stage.id, [], [], expected.failures[..k])
      {
        if stage.skipOnError {
          stageResult.RecordSkipped(items[k].id, e);
        } else {
          stageResult.RecordFailure(items[k].id, e, 1);
        }
      }
  }
}
