/** The pool of active items: routing items to stages and replacing consumed items by outputs. */
module Pool {
  import opened Seqs
  import opened Ids
  import opened Items
  import opened Batch
  import opened BatchProperties

  /** Empty `inputStreams` accept everything; untagged items are visible to all stages. */
  predicate MatchesStream(inputStreams: seq<string>, stream: Option<string>) {
    inputStreams == [] || stream.None? || stream.value in inputStreams
  }

  /** The items of the pool that a stage with these input streams accepts. */
  function Accepted(pool: seq<PipelineItem>, inputStreams: seq<string>): seq<PipelineItem> {
    if pool == [] then []
    else
      var rest, last := Accepted(pool[..|pool| - 1], inputStreams), pool[|pool| - 1];
      if MatchesStream(inputStreams, last.stream) then rest + [last] else rest
  }

  /** The items whose id is not in `gone`, in order. */
  function Retained(pool: seq<PipelineItem>, gone: set<string>): seq<PipelineItem> {
    if pool == [] then []
    else
      var rest, last := Retained(pool[..|pool| - 1], gone), pool[|pool| - 1];
      if last.id in gone then rest else rest + [last]
  }

  function Retag(items: seq<PipelineItem>, outputStream: Option<string>): seq<PipelineItem> {
    seq(|items|, i requires 0 <= i < |items| =>
      if outputStream.Some? then items[i].(stream := outputStream) else items[i])
  }

  function AllOutputs(successes: seq<StageItemSuccess>, outputStream: Option<string>): seq<PipelineItem> {
    if successes == [] then []
    else
      AllOutputs(successes[..|successes| - 1], outputStream) + Retag(successes[|successes| - 1].outputs, outputStream)
  }

  function SuccessIds(list: seq<StageItemSuccess>): set<string> { set s <- list :: s.itemId }
  function SkipIds(list: seq<StageItemSkipped>): set<string> { set s <- list :: s.itemId }
  function FailureIds(list: seq<StageItemFailure>): set<string> { set s <- list :: s.itemId }

  function Consumed(o: Outcome): set<string> {
    SuccessIds(o.successes) + SkipIds(o.skipped) + FailureIds(o.failures)
  }

  lemma SuccessIdsPush(list: seq<StageItemSuccess>, s: StageItemSuccess)
    ensures SuccessIds(list + [s]) == SuccessIds(list) + {s.itemId}
  {
  }

  lemma SkipIdsPush(list: seq<StageItemSkipped>, s: StageItemSkipped)
    ensures SkipIds(list + [s]) == SkipIds(list) + {s.itemId}
  {
  }

  lemma FailureIdsPush(list: seq<StageItemFailure>, f: StageItemFailure)
    ensures FailureIds(list + [f]) == FailureIds(list) + {f.itemId}
  {
  }

  /** A stage's result together with its `output_stream`. */
  datatype TaggedOutcome = TaggedOutcome(o: Outcome, outputStream: Option<string>)

  function Outputs(r: TaggedOutcome): seq<PipelineItem> {
    AllOutputs(r.o.successes, r.outputStream)
  }

  /** Drop what the stage consumed, then append what it produced. */
  function MergePool(pool: seq<PipelineItem>, r: TaggedOutcome): seq<PipelineItem> {
    Retained(pool, Consumed(r.o)) + Outputs(r)
  }

  function MergeAll(pool: seq<PipelineItem>, rs: seq<TaggedOutcome>): seq<PipelineItem> {
    if rs == [] then pool else MergePool(MergeAll(pool, rs[..|rs| - 1]), rs[|rs| - 1])
  }

  // -- Retained, in order ----------------------------------------------------------------

  ghost predicate RetainedAt(pool: seq<PipelineItem>, gone: set<string>, at: seq<nat>) {
    Ascending(at, |pool|) && forall k :: 0 <= k < |pool| ==> (k in at <==> pool[k].id !in gone)
  }

  lemma RetainedAtPush(pool: seq<PipelineItem>, x: PipelineItem, gone: set<string>, at: seq<nat>)
    requires RetainedAt(pool, gone, at)
    ensures RetainedAt(pool + [x], gone, if x.id in gone then at else at + [|pool|])
  {
    var at', pool' := if x.id in gone then at else at + [|pool|], pool + [x];
    forall k | 0 <= k < |pool'| ensures k in at' <==> pool'[k].id !in gone {
      assert k < |pool| ==> pool'[k] == pool[k];
      assert k in at' <==> k in at || (k == |pool| && x.id !in gone);
    }
  }

  /** What is retained are the items whose id is not gone, in the order of the pool. */
  lemma {:induction false} RetainedInOrder(pool: seq<PipelineItem>, gone: set<string>) returns (at: seq<nat>)
    ensures RetainedAt(pool, gone, at) && Retained(pool, gone) == Picked(pool, at)
  {
    if pool == [] {
      at := [];
    } else {
      var n := |pool| - 1;
      var before := RetainedInOrder(pool[..n], gone);
      SplitLast(pool);
      RetainedAtPush(pool[..n], pool[n], gone, before);
      at := if pool[n].id in gone then before else before + [n];
      PickedPush(pool[..n], pool[n], before);
    }
  }

  // -- Retained, as a multiset ---------------------------------------------------------

  lemma {:induction false} RetainedCount(pool: seq<PipelineItem>, gone: set<string>, x: PipelineItem)
    ensures multiset(Retained(pool, gone))[x] == if x.id in gone then 0 else multiset(pool)[x]
  {
    if pool != [] {
      var init, last := pool[..|pool| - 1], pool[|pool| - 1];
      RetainedCount(init, gone, x);
      assert pool == init + [last];
    }
  }

  lemma RetainedOfUnion(pool: seq<PipelineItem>, a: set<string>, b: set<string>)
    ensures multiset(Retained(Retained(pool, a), b)) == multiset(Retained(pool, a + b))
  {
    forall x ensures multiset(Retained(Retained(pool, a), b))[x] == multiset(Retained(pool, a + b))[x] {
      RetainedCount(Retained(pool, a), b, x);
      RetainedCount(pool, a, x);
      RetainedCount(pool, a + b, x);
    }
  }

  lemma RetainedOfConcat(p: seq<PipelineItem>, q: seq<PipelineItem>, gone: set<string>)
    ensures multiset(Retained(p + q, gone)) == multiset(Retained(p, gone)) + multiset(Retained(q, gone))
  {
    forall x
      ensures multiset(Retained(p + q, gone))[x] == (multiset(Retained(p, gone)) + multiset(Retained(q, gone)))[x]
    {
      RetainedCount(p + q, gone, x);
      RetainedCount(p, gone, x);
      RetainedCount(q, gone, x);
    }
  }

  ghost predicate NoneIn(items: seq<PipelineItem>, gone: set<string>) {
    forall x :: x in items ==> x.id !in gone
  }

  lemma RetainedUntouched(p: seq<PipelineItem>, gone: set<string>)
    requires NoneIn(p, gone)
    ensures multiset(Retained(p, gone)) == multiset(p)
  {
    forall x ensures multiset(Retained(p, gone))[x] == multiset(p)[x] {
      RetainedCount(p, gone, x);
      assert x in p <==> x in multiset(p);
    }
  }

  // -- Confluence -------------------------------------------------------------------------

  /** No result's outputs reuse an id that another result consumes. */
  ghost predicate NonInterfering(rs: seq<TaggedOutcome>) {
    forall i, j :: 0 <= i < |rs| && 0 <= j < |rs| && i != j ==> NoneIn(Outputs(rs[i]), Consumed(rs[j].o))
  }

  function AllConsumed(rs: seq<TaggedOutcome>): set<string> {
    set r <- rs, id <- Consumed(r.o) :: id
  }

  function OutputBag(): TaggedOutcome -> multiset<PipelineItem> {
    (r: TaggedOutcome) => multiset(Outputs(r))
  }

  lemma {:induction false} OutputsUntouched(rs: seq<TaggedOutcome>, gone: set<string>, x: PipelineItem)
    requires forall i :: 0 <= i < |rs| ==> NoneIn(Outputs(rs[i]), gone)
    ensures x.id in gone ==> Sum(rs, OutputBag())[x] == 0
  {
    if rs != [] {
      OutputsUntouched(rs[..|rs| - 1], gone, x);
      var last := rs[|rs| - 1];
      assert x in Outputs(last) <==> x in multiset(Outputs(last));
    }
  }

  /** Closed form: what nobody consumed, untouched, plus every output. */
  lemma {:induction false} MergeClosedForm(pool: seq<PipelineItem>, rs: seq<TaggedOutcome>)
    requires NonInterfering(rs)
    ensures multiset(MergeAll(pool, rs)) == multiset(Retained(pool, AllConsumed(rs))) + Sum(rs, OutputBag())
  {
    if rs == [] {
      RetainedUntouched(pool, {});
      assert AllConsumed(rs) == {};
    } else {
      var n := |rs| - 1;
      var init, last := rs[..n], rs[n];
      var gone := Consumed(last.o);
      MergeClosedForm(pool, init);
      assert rs == init + [last];
      assert AllConsumed(rs) == AllConsumed(init) + gone;
      forall i | 0 <= i < n ensures NoneIn(Outputs(init[i]), gone) {
        assert rs[i] == init[i];
      }
      forall x ensures multiset(MergeAll(pool, rs))[x]
                       == (multiset(Retained(pool, AllConsumed(rs))) + Sum(rs, OutputBag()))[x]
      {
        CountAfterMerge(pool, init, last, x);
        RetainedCount(pool, AllConsumed(rs), x);
      }
    }
  }

  lemma CountAfterMerge(pool: seq<PipelineItem>, init: seq<TaggedOutcome>, last: TaggedOutcome, x: PipelineItem)
    requires multiset(MergeAll(pool, init)) == multiset(Retained(pool, AllConsumed(init))) + Sum(init, OutputBag())
    requires forall i :: 0 <= i < |init| ==> NoneIn(Outputs(init[i]), Consumed(last.o))
    ensures multiset(MergePool(MergeAll(pool, init), last))[x] ==
            (if x.id in AllConsumed(init) + Consumed(last.o) then 0 else multiset(pool)[x])
            + Sum(init, OutputBag())[x] + multiset(Outputs(last))[x]
  {
    var before := MergeAll(pool, init);
    RetainedCount(before, Consumed(last.o), x);
    RetainedCount(pool, AllConsumed(init), x);
    OutputsUntouched(init, Consumed(last.o), x);
    assert multiset(before)[x] == multiset(Retained(pool, AllConsumed(init)))[x] + Sum(init, OutputBag())[x];
  }

  lemma {:induction false} TwoPlaces<T>(s: seq<T>, x: T) returns (i: nat, j: nat)
    requires 2 <= multiset(s)[x]
    ensures i < j < |s| && s[i] == x && s[j] == x
  {
    var n := |s| - 1;
    assert s == s[..n] + [s[n]];
    if s[n] == x {
      assert x in multiset(s[..n]);
      var k :| 0 <= k < n && s[..n][k] == x;
      i, j := k, n;
    } else {
      i, j := TwoPlaces(s[..n], x);
    }
  }

  lemma NonInterferingInAnyOrder(a: seq<TaggedOutcome>, b: seq<TaggedOutcome>)
    requires multiset(a) == multiset(b) && NonInterfering(a)
    ensures NonInterfering(b)
  {
    forall i, j | 0 <= i < |b| && 0 <= j < |b| && i != j ensures NoneIn(Outputs(b[i]), Consumed(b[j].o)) {
      assert b[i] in multiset(a) && b[j] in multiset(a);
      if b[i] == b[j] {
        CountTwice(b, i, j);
        var k, l := TwoPlaces(a, b[i]);
        assert NoneIn(Outputs(a[k]), Consumed(a[l].o));
      } else {
        var k :| 0 <= k < |a| && a[k] == b[i];
        var l :| 0 <= l < |a| && a[l] == b[j];
        assert NoneIn(Outputs(a[k]), Consumed(a[l].o));
      }
    }
  }

  lemma CountTwice<T>(s: seq<T>, i: nat, j: nat)
    requires i < |s| && j < |s| && i != j && s[i] == s[j]
    ensures 2 <= multiset(s)[s[i]]
  {
    MultisetWithout(s, i);
    var rest := Without(s, i);
    assert rest[if j < i then j else j - 1] == s[j];
    assert s[j] in rest;
  }

  /** Merging a batch's results in any order leaves the same pool, up to order. */
  lemma MergeConfluence(pool: seq<PipelineItem>, a: seq<TaggedOutcome>, b: seq<TaggedOutcome>)
    requires multiset(a) == multiset(b) && NonInterfering(a)
    ensures multiset(MergeAll(pool, a)) == multiset(MergeAll(pool, b))
  {
    NonInterferingInAnyOrder(a, b);
    MergeClosedForm(pool, a);
    MergeClosedForm(pool, b);
    SumPermutation(a, b, OutputBag());
    assert forall r :: (r in a <==> r in multiset(a)) && (r in b <==> r in multiset(b));
    assert AllConsumed(a) == AllConsumed(b);
  }

  lemma Cancel<T>(both: multiset<T>, a: multiset<T>, a': multiset<T>, b: multiset<T>, b': multiset<T>)
    requires a' <= a && b' <= b
    ensures both + a' + b == both + b' + a <==> a - a' == b - b'
  {
    if both + a' + b == both + b' + a {
      forall x ensures (a - a')[x] == (b - b')[x] {
        assert (both + a' + b)[x] == (both + b' + a)[x];
      }
    }
    if a - a' == b - b' {
      forall x ensures (both + a' + b)[x] == (both + b' + a)[x] {
        assert (a - a')[x] == (b - b')[x];
      }
    }
  }

  /**
   * Two results commute exactly when each consumes, out of the other's outputs, the same items: in particular
   * when neither consumes any.
   */
  lemma MergeCommutesIff(pool: seq<PipelineItem>, r: TaggedOutcome, s: TaggedOutcome)
    ensures multiset(MergePool(MergePool(pool, r), s)) == multiset(MergePool(MergePool(pool, s), r)) <==>
            multiset(Outputs(r)) - multiset(Retained(Outputs(r), Consumed(s.o))) ==
            multiset(Outputs(s)) - multiset(Retained(Outputs(s), Consumed(r.o)))
  {
    var a, b := multiset(Outputs(r)), multiset(Outputs(s));
    var a', b' := multiset(Retained(Outputs(r), Consumed(s.o))), multiset(Retained(Outputs(s), Consumed(r.o)));
    var both := multiset(Retained(pool, Consumed(r.o) + Consumed(s.o)));
    MergeTwo(pool, r, s);
    MergeTwo(pool, s, r);
    assert Consumed(r.o) + Consumed(s.o) == Consumed(s.o) + Consumed(r.o);
    forall x ensures a'[x] <= a[x] && b'[x] <= b[x] {
      RetainedCount(Outputs(r), Consumed(s.o), x);
      RetainedCount(Outputs(s), Consumed(r.o), x);
    }
    Cancel(both, a, a', b, b');
  }

  lemma MergeTwo(pool: seq<PipelineItem>, r: TaggedOutcome, s: TaggedOutcome)
    ensures multiset(MergePool(MergePool(pool, r), s)) ==
            multiset(Retained(pool, Consumed(r.o) + Consumed(s.o)))
            + multiset(Retained(Outputs(r), Consumed(s.o))) + multiset(Outputs(s))
  {
    RetainedOfConcat(Retained(pool, Consumed(r.o)), Outputs(r), Consumed(s.o));
    RetainedOfUnion(pool, Consumed(r.o), Consumed(s.o));
  }

  // -- With the executor -----------------------------------------------------------------------

  /** The outcome settles exactly the items it was given. */
  ghost predicate Accounts(o: Outcome, items: seq<PipelineItem>) {
    SettledIds(o) == multiset(ItemIds(items))
  }

  lemma {:induction false} SuccessSettled(list: seq<StageItemSuccess>, x: string)
    ensures x in SuccessIds(list) <==> x in SuccessIdBag(list)
  {
    if list != [] {
      var init, last := list[..|list| - 1], list[|list| - 1];
      assert list == init + [last];
      SuccessSettled(init, x);
      SuccessIdsPush(init, last);
      SuccessIdPush(init, last);
    }
  }

  lemma {:induction false} SkipSettled(list: seq<StageItemSkipped>, x: string)
    ensures x in SkipIds(list) <==> x in SkipIdBag(list)
  {
    if list != [] {
      var init, last := list[..|list| - 1], list[|list| - 1];
      assert list == init + [last];
      SkipSettled(init, x);
      SkipIdsPush(init, last);
      SkipIdPush(init, last);
    }
  }

  lemma {:induction false} FailureSettled(list: seq<StageItemFailure>, x: string)
    ensures x in FailureIds(list) <==> x in FailureIdBag(list)
  {
    if list != [] {
      var init, last := list[..|list| - 1], list[|list| - 1];
      assert list == init + [last];
      FailureSettled(init, x);
      FailureIdsPush(init, last);
      FailureIdPush(init, last);
    }
  }

  lemma ConsumedAreSettled(o: Outcome, x: string)
    ensures x in Consumed(o) <==> x in SettledIds(o)
  {
    SuccessSettled(o.successes, x);
    SkipSettled(o.skipped, x);
    FailureSettled(o.failures, x);
  }

  lemma {:induction false} AcceptedIff(pool: seq<PipelineItem>, inputStreams: seq<string>, x: PipelineItem)
    ensures x in Accepted(pool, inputStreams) <==> x in pool && MatchesStream(inputStreams, x.stream)
  {
    if pool != [] {
      var init, last := pool[..|pool| - 1], pool[|pool| - 1];
      AcceptedIff(init, inputStreams, x);
      assert pool == init + [last];
    }
  }

  /** A stage with these input streams accepts a pool item with this id. */
  ghost predicate Takes(pool: seq<PipelineItem>, inputStreams: seq<string>, id: string) {
    exists y :: y in pool && MatchesStream(inputStreams, y.stream) && y.id == id
  }

  /** A result consumes an id exactly when its stage accepts a pool item with that id. */
  lemma ConsumedIffTaken(pool: seq<PipelineItem>, inputStreams: seq<string>, o: Outcome, id: string)
    requires Accounts(o, Accepted(pool, inputStreams))
    ensures id in Consumed(o) <==> Takes(pool, inputStreams, id)
  {
    var accepted := Accepted(pool, inputStreams);
    ConsumedAreSettled(o, id);
    if id in SettledIds(o) {
      var i :| 0 <= i < |accepted| && ItemIds(accepted)[i] == id;
      assert accepted[i] in accepted;
      AcceptedIff(pool, inputStreams, accepted[i]);
    }
    if y :| y in pool && MatchesStream(inputStreams, y.stream) && y.id == id {
      AcceptedIff(pool, inputStreams, y);
      var i :| 0 <= i < |accepted| && accepted[i] == y;
      assert ItemIds(accepted)[i] == id;
    }
  }
}
