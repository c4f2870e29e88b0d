/** Drive enumeration, and what it returns told by the ways that lead from a root folder to an entry. */
module DriveTrails {
  import opened Seqs
  import opened Order
  import opened Ids
  import opened Items
  import opened Drive

  /** A way down: the position taken in each listing, from the outermost one. */
  type Trail = seq<nat>

  function Inside(list: Lister, file: DriveFile): seq<DriveFile> {
    if IsFolder(file) then Listing(list, file.id) else []
  }

  ghost predicate IsTrail(list: Lister, files: seq<DriveFile>, t: Trail)
    decreases |t|
  {
    t != [] && t[0] < |files| && (|t| > 1 ==> IsTrail(list, Inside(list, files[t[0]]), t[1..]))
  }

  ghost function FileAt(list: Lister, files: seq<DriveFile>, t: Trail): DriveFile
    requires IsTrail(list, files, t)
    decreases |t|
  {
    if |t| == 1 then files[t[0]] else FileAt(list, Inside(list, files[t[0]]), t[1..])
  }

  ghost function NamesOn(list: Lister, files: seq<DriveFile>, t: Trail): seq<string>
    requires IsTrail(list, files, t)
    decreases |t|
  {
    [files[t[0]].name] + if |t| == 1 then [] else NamesOn(list, Inside(list, files[t[0]]), t[1..])
  }

  /** What the end of a trail contributes: a folder, a file that passes the filters, or nothing. */
  ghost function EntriesAt(settings: Settings, list: Lister, files: seq<DriveFile>): Trail -> multiset<Entry> {
    (t: Trail) =>
      if IsTrail(list, files, t) then EntriesFor(settings, FileAt(list, files, t), PathOf("", NamesOn(list, files, t)))
      else multiset{}
  }

  /** The trail ends at a folder whose listing fails. */
  ghost predicate FailsAt(list: Lister, files: seq<DriveFile>, t: Trail) {
    IsTrail(list, files, t) && IsFolder(FileAt(list, files, t)) && list(FileAt(list, files, t).id).Err?
  }

  ghost predicate SomeFails(list: Lister, files: seq<DriveFile>) {
    exists t {:trigger FailsAt(list, files, t)} :: FailsAt(list, files, t)
  }

  ghost predicate FailsWith(list: Lister, files: seq<DriveFile>, error: string) {
    exists t {:trigger FailsAt(list, files, t)} ::
      FailsAt(list, files, t) && list(FileAt(list, files, t).id) == Err(error)
  }

  /** Every trail, each once. */
  ghost predicate AllTrails(list: Lister, files: seq<DriveFile>, trails: seq<Trail>) {
    Distinct(trails) && forall t :: t in trails <==> IsTrail(list, files, t)
  }

  /** In id order, one item for each trail that ends at a file that passes the filters. */
  ghost predicate IsInventory(settings: Settings, list: Lister, files: seq<DriveFile>, trails: seq<Trail>,
                              items: seq<SourceItem>)
  {
    && SortedBy(items, (item: SourceItem) => item.id)
    && forall item :: multiset(items)[item] == Sum(trails, EntriesAt(settings, list, files))[File(item)]
  }

  /** The item tells of the file at the end of the trail, under the path that the names on the way spell. */
  ghost predicate TellsOf(list: Lister, files: seq<DriveFile>, t: Trail, item: SourceItem)
    requires IsTrail(list, files, t)
  {
    && item.id == FileAt(list, files, t).id && item.displayName == FileAt(list, files, t).name
    && item.mimeType == FileAt(list, files, t).mimeType
    && item.path == JoinWith(Trimmed(NamesOn(list, files, t)), '/')
  }

  /** The trail ends at a file that passes the filters, and the item tells of it. */
  ghost predicate Yields(settings: Settings, list: Lister, files: seq<DriveFile>, t: Trail, item: SourceItem) {
    && IsTrail(list, files, t) && TellsOf(list, files, t, item)
    && item.mimeType != "application/vnd.google-apps.folder"
    && Included(settings, FileAt(list, files, t), item.path)
  }

  ghost predicate SomeYields(settings: Settings, list: Lister, files: seq<DriveFile>, item: SourceItem) {
    exists t :: Yields(settings, list, files, t, item)
  }

  /** What is returned are the files that pass the filters, each with its own fields and path. */
  ghost predicate OnlyFiles(settings: Settings, list: Lister, files: seq<DriveFile>, items: seq<SourceItem>) {
    forall item :: item in items <==> SomeYields(settings, list, files, item)
  }

  lemma EntryYields(settings: Settings, list: Lister, files: seq<DriveFile>, t: Trail, item: SourceItem)
    ensures File(item) in EntriesAt(settings, list, files)(t) <==> Yields(settings, list, files, t, item)
  {
    if IsTrail(list, files, t) {
      PathIsJoined(NamesOn(list, files, t));
    }
  }

  lemma InventoryIsFiles(settings: Settings, list: Lister, files: seq<DriveFile>, trails: seq<Trail>,
                         items: seq<SourceItem>)
    requires AllTrails(list, files, trails) && IsInventory(settings, list, files, trails, items)
    ensures OnlyFiles(settings, list, files, items)
  {
    var f := EntriesAt(settings, list, files);
    forall item ensures item in items <==> SomeYields(settings, list, files, item) {
      assert item in items <==> item in multiset(items);
      InSum<Trail, Entry>(trails, f, File(item));
      if t :| t in trails && File(item) in f(t) {
        EntryYields(settings, list, files, t, item);
      }
      if t :| Yields(settings, list, files, t, item) {
        EntryYields(settings, list, files, t, item);
      }
    }
  }

  // -- One step down ----------------------------------------------------------------------------

  /** `q` leads to a folder with this listing and path; the empty trail leads to the roots. */
  ghost predicate LeadsTo(list: Lister, top: seq<DriveFile>, q: Trail, files: seq<DriveFile>, prefix: string) {
    if q == [] then files == top && prefix == ""
    else
      && IsTrail(list, top, q) && IsFolder(FileAt(list, top, q))
      && files == Listing(list, FileAt(list, top, q).id) && prefix == PathOf("", NamesOn(list, top, q))
  }

  lemma {:induction false} SnocTrail(list: Lister, files: seq<DriveFile>, t: Trail, k: nat)
    requires IsTrail(list, files, t)
    ensures IsTrail(list, files, t + [k]) <==> k < |Inside(list, FileAt(list, files, t))|
    ensures IsTrail(list, files, t + [k]) ==>
              FileAt(list, files, t + [k]) == Inside(list, FileAt(list, files, t))[k]
              && NamesOn(list, files, t + [k]) == NamesOn(list, files, t) + [FileAt(list, files, t + [k]).name]
    decreases |t|
  {
    if |t| == 1 {
      assert (t + [k])[1..] == [k];
    } else {
      assert (t + [k])[1..] == t[1..] + [k];
      SnocTrail(list, Inside(list, files[t[0]]), t[1..], k);
    }
  }

  lemma {:induction false} PathSnoc(prefix: string, names: seq<string>, name: string)
    ensures PathOf(prefix, names + [name]) == PathIn(PathOf(prefix, names), name)
    decreases |names|
  {
    if names == [] {
      assert [name][1..] == [];
    } else {
      assert (names + [name])[1..] == names[1..] + [name];
      PathSnoc(PathIn(prefix, names[0]), names[1..], name);
    }
  }

  lemma ChildTrail(list: Lister, top: seq<DriveFile>, q: Trail, files: seq<DriveFile>, prefix: string, k: nat)
    requires LeadsTo(list, top, q, files, prefix)
    ensures IsTrail(list, top, q + [k]) <==> k < |files|
    ensures k < |files| ==>
              FileAt(list, top, q + [k]) == files[k]
              && PathOf("", NamesOn(list, top, q + [k])) == PathIn(prefix, files[k].name)
  {
    if q == [] {
      assert q + [k] == [k];
      if k < |files| {
        PathSnoc("", [], files[k].name);
        assert NamesOn(list, top, [k]) == [] + [files[k].name];
      }
    } else {
      SnocTrail(list, top, q, k);
      if k < |files| {
        PathSnoc("", NamesOn(list, top, q), files[k].name);
      }
    }
  }

  lemma {:induction false} PrefixTrail(list: Lister, files: seq<DriveFile>, t: Trail, m: nat)
    requires IsTrail(list, files, t) && 0 < m <= |t|
    ensures IsTrail(list, files, t[..m])
    decreases |t|
  {
    if 1 < m {
      assert t[..m][1..] == t[1..][..m - 1];
      PrefixTrail(list, Inside(list, files[t[0]]), t[1..], m - 1);
    }
  }

  /** A trail goes on only below a folder. */
  lemma {:induction false} FolderBefore(list: Lister, files: seq<DriveFile>, t: Trail, m: nat)
    requires IsTrail(list, files, t) && 0 < m < |t|
    ensures IsTrail(list, files, t[..m]) && IsFolder(FileAt(list, files, t[..m]))
    decreases |t|
  {
    if 1 < m {
      assert t[..m][1..] == t[1..][..m - 1];
      FolderBefore(list, Inside(list, files[t[0]]), t[1..], m - 1);
    }
  }

  // -- The trails of one listing --------------------------------------------------------------------

  /** The trails one step below `q`, to the folders or to the other files of the listing. */
  function StepsTo(folders: bool, q: Trail, files: seq<DriveFile>): seq<Trail> {
    if files == [] then []
    else
      var n := |files| - 1;
      StepsTo(folders, q, files[..n]) + if IsFolder(files[n]) == folders then [q + [n]] else []
  }

  predicate IsStep(folders: bool, q: Trail, files: seq<DriveFile>, t: Trail) {
    |t| == |q| + 1 && t[..|q|] == q && t[|q|] < |files| && IsFolder(files[t[|q|]]) == folders
  }

  lemma {:induction false} StepsAre(folders: bool, q: Trail, files: seq<DriveFile>, t: Trail)
    ensures t in StepsTo(folders, q, files) <==> IsStep(folders, q, files, t)
  {
    if files != [] {
      var n := |files| - 1;
      StepsAre(folders, q, files[..n], t);
      assert |t| == |q| + 1 && t[..|q|] == q && t[|q|] == n ==> t == q + [n];
    }
  }

  lemma {:induction false} StepsDistinct(folders: bool, q: Trail, files: seq<DriveFile>)
    ensures Distinct(StepsTo(folders, q, files))
  {
    if files != [] {
      var n := |files| - 1;
      StepsDistinct(folders, q, files[..n]);
      StepsAre(folders, q, files[..n], q + [n]);
      if IsFolder(files[n]) == folders {
        PushBack(StepsTo(folders, q, files[..n]), q + [n]);
      }
    }
  }

  lemma {:induction false} SumConcat<A, B>(a: seq<A>, b: seq<A>, f: A -> multiset<B>)
    ensures Sum(a + b, f) == Sum(a, f) + Sum(b, f)
  {
    if b == [] {
      assert a + b == a;
    } else {
      var k := |b| - 1;
      SumConcat(a, b[..k], f);
      assert (a + b)[..|a + b| - 1] == a + b[..k];
    }
  }

  lemma StepsPush(folders: bool, q: Trail, files: seq<DriveFile>, k: nat)
    requires k < |files|
    ensures StepsTo(folders, q, files[..k + 1]) ==
            StepsTo(folders, q, files[..k]) + if IsFolder(files[k]) == folders then [q + [k]] else []
  {
    assert files[..k + 1][..k] == files[..k];
  }

  lemma FilesPush(settings: Settings, files: seq<DriveFile>, prefix: string, k: nat)
    requires k < |files|
    ensures FilesIn(settings, files[..k + 1], prefix) ==
            FilesIn(settings, files[..k], prefix) + FileEntries(settings, files[k], prefix)
  {
    assert files[..k + 1][..k] == files[..k];
  }

  lemma ChildEntries(settings: Settings, list: Lister, top: seq<DriveFile>, q: Trail, files: seq<DriveFile>,
                     prefix: string, k: nat)
    requires LeadsTo(list, top, q, files, prefix) && k < |files|
    ensures EntriesAt(settings, list, top)(q + [k]) == EntriesFor(settings, files[k], PathIn(prefix, files[k].name))
  {
    ChildTrail(list, top, q, files, prefix, k);
  }

  lemma {:induction false} StepsSum(settings: Settings, q: Trail, files: seq<DriveFile>, prefix: string, k: nat,
                                    f: Trail -> multiset<Entry>)
    requires k <= |files|
    requires forall i: nat :: i < k && !IsFolder(files[i]) ==> f(q + [i]) == FileEntries(settings, files[i], prefix)
    ensures Sum<Trail, Entry>(StepsTo(false, q, files[..k]), f) == FilesIn(settings, files[..k], prefix)
  {
    if 0 < k {
      var n: nat, steps := k - 1, StepsTo(false, q, files[..k - 1]);
      StepsSum(settings, q, files, prefix, n, f);
      StepsPush(false, q, files, n);
      FilesPush(settings, files, prefix, n);
      if IsFolder(files[n]) {
        assert steps + [] == steps;
      } else {
        SumPush<Trail, Entry>(steps, q + [n], f);
      }
    }
  }

  /** What the trails one step below `q` to files contribute is what the listing contributes. */
  lemma StepsContribute(settings: Settings, list: Lister, top: seq<DriveFile>, q: Trail, files: seq<DriveFile>,
                        prefix: string)
    requires LeadsTo(list, top, q, files, prefix)
    ensures Sum<Trail, Entry>(StepsTo(false, q, files), EntriesAt(settings, list, top)) ==
            FilesIn(settings, files, prefix)
  {
    forall i: nat | i < |files| && !IsFolder(files[i])
      ensures EntriesAt(settings, list, top)(q + [i]) == FileEntries(settings, files[i], prefix)
    {
      ChildEntries(settings, list, top, q, files, prefix, i);
    }
    StepsSum(settings, q, files, prefix, |files|, EntriesAt(settings, list, top));
    assert files[..|files|] == files;
  }

  // -- What has been explored ------------------------------------------------------------------------

  ghost predicate QueuedAt(list: Lister, top: seq<DriveFile>, x: Queued, p: Trail) {
    && IsTrail(list, top, p) && IsFolder(FileAt(list, top, p))
    && FileAt(list, top, p).id == x.id && PathOf("", NamesOn(list, top, p)) == x.prefix
  }

  /** Each queued folder with the trail that leads to it. */
  ghost predicate Positions(list: Lister, top: seq<DriveFile>, queue: seq<Queued>, paths: seq<Trail>) {
    |queue| == |paths| && forall i :: 0 <= i < |queue| ==> QueuedAt(list, top, queue[i], paths[i])
  }

  lemma EnqueuePush(queue: seq<Queued>, files: seq<DriveFile>, prefix: string, k: nat)
    requires k < |files|
    ensures Enqueue(queue, files[..k + 1], prefix) ==
            if IsFolder(files[k])
            then Enqueue(queue, files[..k], prefix) + [Queued(files[k].id, PathIn(prefix, files[k].name))]
            else Enqueue(queue, files[..k], prefix)
  {
    assert files[..k + 1][..k] == files[..k];
  }

  lemma Append<T>(a: seq<T>, b: seq<T>, x: T)
    ensures a + (b + [x]) == a + b + [x] && b + [] == b
  {
  }

  lemma PositionsStep(list: Lister, top: seq<DriveFile>, q: Trail, files: seq<DriveFile>, prefix: string, k: nat,
                      queue: seq<Queued>, paths: seq<Trail>)
    requires LeadsTo(list, top, q, files, prefix) && k < |files|
    requires Positions(list, top, Enqueue(queue, files[..k], prefix), paths + StepsTo(true, q, files[..k]))
    ensures Positions(list, top, Enqueue(queue, files[..k + 1], prefix), paths + StepsTo(true, q, files[..k + 1]))
  {
    EnqueuePush(queue, files, prefix, k);
    StepsPush(true, q, files, k);
    Append<Trail>(paths, StepsTo(true, q, files[..k]), q + [k]);
    if IsFolder(files[k]) {
      ChildTrail(list, top, q, files, prefix, k);
      PositionsPush(list, top, Enqueue(queue, files[..k], prefix), paths + StepsTo(true, q, files[..k]),
        Queued(files[k].id, PathIn(prefix, files[k].name)), q + [k]);
    }
  }

  lemma {:induction false} EnqueuePositions(list: Lister, top: seq<DriveFile>, q: Trail, files: seq<DriveFile>,
                                            prefix: string, k: nat, queue: seq<Queued>, paths: seq<Trail>)
    requires LeadsTo(list, top, q, files, prefix) && k <= |files| && Positions(list, top, queue, paths)
    ensures Positions(list, top, Enqueue(queue, files[..k], prefix), paths + StepsTo(true, q, files[..k]))
  {
    if 0 < k {
      EnqueuePositions(list, top, q, files, prefix, k - 1, queue, paths);
      PositionsStep(list, top, q, files, prefix, k - 1, queue, paths);
    } else {
      assert paths + [] == paths;
    }
  }

  lemma PositionsPush(list: Lister, top: seq<DriveFile>, queue: seq<Queued>, paths: seq<Trail>, x: Queued, p: Trail)
    requires Positions(list, top, queue, paths) && QueuedAt(list, top, x, p)
    ensures Positions(list, top, queue + [x], paths + [p])
  {
  }

  /** The trail has been explored, or leads through a queued folder. */
  ghost predicate Covered(paths: seq<Trail>, done: seq<Trail>, t: Trail) {
    t in done || Through(paths, t)
  }

  ghost predicate Through(paths: seq<Trail>, t: Trail) {
    exists i :: 0 <= i < |paths| && paths[i] <= t
  }

  lemma ThroughMore(paths: seq<Trail>, more: seq<Trail>, t: Trail)
    requires paths != []
    ensures Through(paths[1..], t) || Through(more, t) ==> Through(paths[1..] + more, t)
    ensures Through(paths, t) ==> paths[0] <= t || Through(paths[1..], t)
  {
    if Through(paths[1..], t) {
      var i :| 0 <= i < |paths[1..]| && paths[1..][i] <= t;
      assert (paths[1..] + more)[i] <= t;
    }
    if Through(more, t) {
      var i :| 0 <= i < |more| && more[i] <= t;
      assert (paths[1..] + more)[|paths[1..]| + i] <= t;
    }
    if Through(paths, t) {
      var i :| 0 <= i < |paths| && paths[i] <= t;
      assert i == 0 || paths[1..][i - 1] <= t;
    }
  }

  lemma ThroughOne(paths: seq<Trail>, p: Trail, t: Trail)
    requires p in paths && p <= t
    ensures Through(paths, t)
  {
  }

  ghost predicate AllCovered(list: Lister, top: seq<DriveFile>, paths: seq<Trail>, done: seq<Trail>) {
    forall t {:trigger Covered(paths, done, t)} :: IsTrail(list, top, t) ==> Covered(paths, done, t)
  }

  /** What leads to an explored or queued entry has been explored. */
  ghost predicate ParentsDone(paths: seq<Trail>, done: seq<Trail>) {
    forall t {:trigger t in done + paths} :: t in done + paths && 1 < |t| ==> t[..|t| - 1] in done
  }

  /** The explored trails are trails, and no listing on them has failed. */
  ghost predicate DoneFine(list: Lister, top: seq<DriveFile>, done: seq<Trail>) {
    forall t :: t in done ==> IsTrail(list, top, t) && !FailsAt(list, top, t)
  }

  ghost predicate Explored(list: Lister, top: seq<DriveFile>, queue: seq<Queued>, paths: seq<Trail>, done: seq<Trail>) {
    && Positions(list, top, queue, paths) && Distinct(done + paths)
    && AllCovered(list, top, paths, done) && ParentsDone(paths, done) && DoneFine(list, top, done)
  }

  lemma CoverStep(list: Lister, top: seq<DriveFile>, q: Trail, files: seq<DriveFile>, prefix: string, paths: seq<Trail>,
                  done: seq<Trail>, t: Trail)
    requires paths != [] && paths[0] == q != [] && LeadsTo(list, top, q, files, prefix)
    requires IsTrail(list, top, t) && Covered(paths, done, t)
    ensures Covered(paths[1..] + StepsTo(true, q, files), done + [q] + StepsTo(false, q, files), t)
  {
    if t !in done && t != q {
      ThroughMore(paths, StepsTo(true, q, files), t);
      if q <= t {
        NextOnTrail(list, top, q, files, prefix, t);
        var next := t[..|q| + 1];
        StepsAre(true, q, files, next);
        StepsAre(false, q, files, next);
        if IsFolder(files[t[|q|]]) {
          ThroughOne(StepsTo(true, q, files), next, t);
        } else {
          assert t in StepsTo(false, q, files);
        }
      }
    }
  }

  /** A trail that goes on from `q` goes on to an entry of its listing, and ends there unless that is a folder. */
  lemma NextOnTrail(list: Lister, top: seq<DriveFile>, q: Trail, files: seq<DriveFile>, prefix: string, t: Trail)
    requires LeadsTo(list, top, q, files, prefix) && q != [] && IsTrail(list, top, t) && q <= t && q != t
    ensures t[|q|] < |files| && t[..|q| + 1] == q + [t[|q|]]
    ensures !IsFolder(files[t[|q|]]) ==> t == q + [t[|q|]]
  {
    var k := t[|q|];
    assert t[..|q| + 1] == q + [k];
    PrefixTrail(list, top, t, |q| + 1);
    ChildTrail(list, top, q, files, prefix, k);
    if |q| + 1 < |t| {
      FolderBefore(list, top, t, |q| + 1);
    } else {
      assert t == t[..|q| + 1];
    }
  }

  lemma NewTrails(q: Trail, files: seq<DriveFile>, paths: seq<Trail>, done: seq<Trail>)
    requires paths != [] && paths[0] == q != [] && Distinct(done + paths) && ParentsDone(paths, done)
    ensures Distinct(done + [q] + StepsTo(false, q, files) + (paths[1..] + StepsTo(true, q, files)))
  {
    var known, steps := done + paths, StepsTo(false, q, files) + StepsTo(true, q, files);
    var next := done + [q] + StepsTo(false, q, files) + (paths[1..] + StepsTo(true, q, files));
    StepsDistinct(false, q, files);
    StepsDistinct(true, q, files);
    forall t | t in StepsTo(false, q, files) ensures t !in StepsTo(true, q, files) {
      StepsAre(false, q, files, t);
      StepsAre(true, q, files, t);
    }
    DistinctAppend(StepsTo(false, q, files), StepsTo(true, q, files));
    NotDone(q, paths, done);
    forall t | t in known ensures t !in steps {
      StepsAre(false, q, files, t);
      StepsAre(true, q, files, t);
      assert t in done + paths;
    }
    DistinctAppend(known, steps);
    assert paths == [q] + paths[1..];
    assert multiset(known + steps) == multiset(next);
    DistinctMultiset(known + steps, next);
  }

  lemma NotDone(q: Trail, paths: seq<Trail>, done: seq<Trail>)
    requires paths != [] && paths[0] == q && Distinct(done + paths)
    ensures q !in done
  {
    assert (done + paths)[|done|] == q;
    assert forall i :: 0 <= i < |done| ==> (done + paths)[i] == done[i];
  }

  lemma DistinctAppend<T>(a: seq<T>, b: seq<T>)
    requires Distinct(a) && Distinct(b) && forall x :: x in a ==> x !in b
    ensures Distinct(a + b)
  {
    assert forall i :: 0 <= i < |a| ==> a[i] in a;
    assert forall i :: 0 <= i < |b| ==> b[i] in b;
  }

  lemma NewParents(q: Trail, files: seq<DriveFile>, paths: seq<Trail>, done: seq<Trail>)
    requires paths != [] && paths[0] == q && ParentsDone(paths, done)
    ensures ParentsDone(paths[1..] + StepsTo(true, q, files), done + [q] + StepsTo(false, q, files))
  {
    var paths', done' := paths[1..] + StepsTo(true, q, files), done + [q] + StepsTo(false, q, files);
    forall t | t in done' + paths' && 1 < |t| ensures t[..|t| - 1] in done' {
      StepsAre(false, q, files, t);
      StepsAre(true, q, files, t);
      if t in done + paths {
        assert t[..|t| - 1] in done;
      } else {
        assert t == q || t in paths[1..] || t[..|t| - 1] == q;
      }
    }
  }

  lemma StepFine(list: Lister, top: seq<DriveFile>, q: Trail, files: seq<DriveFile>, prefix: string, t: Trail)
    requires LeadsTo(list, top, q, files, prefix) && t in StepsTo(false, q, files)
    ensures IsTrail(list, top, t) && !FailsAt(list, top, t)
  {
    StepsAre(false, q, files, t);
    assert t == q + [t[|q|]];
    ChildTrail(list, top, q, files, prefix, t[|q|]);
  }

  lemma NewFine(list: Lister, top: seq<DriveFile>, q: Trail, files: seq<DriveFile>, prefix: string, done: seq<Trail>)
    requires LeadsTo(list, top, q, files, prefix) && q != [] && !FailsAt(list, top, q) && DoneFine(list, top, done)
    ensures DoneFine(list, top, done + [q] + StepsTo(false, q, files))
  {
    forall t | t in done + [q] + StepsTo(false, q, files) ensures IsTrail(list, top, t) && !FailsAt(list, top, t) {
      if t !in done && t != q {
        StepFine(list, top, q, files, prefix, t);
      }
    }
  }

  /** A turn keeps the account of what has been explored. */
  lemma TurnExplores(list: Lister, top: seq<DriveFile>, queue: seq<Queued>, paths: seq<Trail>, done: seq<Trail>)
    requires Explored(list, top, queue, paths, done) && queue != [] && list(queue[0].id).Ok?
    ensures var q, files, prefix := paths[0], list(queue[0].id).value, queue[0].prefix;
            && LeadsTo(list, top, q, files, prefix) && q != []
            && Explored(list, top, Enqueue(queue[1..], files, prefix), paths[1..] + StepsTo(true, q, files),
                        done + [q] + StepsTo(false, q, files))
  {
    var q, files, prefix := paths[0], list(queue[0].id).value, queue[0].prefix;
    assert QueuedAt(list, top, queue[0], q);
    assert Positions(list, top, queue[1..], paths[1..]);
    EnqueuePositions(list, top, q, files, prefix, |files|, queue[1..], paths[1..]);
    assert files[..|files|] == files;
    NewTrails(q, files, paths, done);
    NewParents(q, files, paths, done);
    NewFine(list, top, q, files, prefix, done);
    forall t | IsTrail(list, top, t)
      ensures Covered(paths[1..] + StepsTo(true, q, files), done + [q] + StepsTo(false, q, files), t)
    {
      assert Covered(paths, done, t);
      CoverStep(list, top, q, files, prefix, paths, done, t);
    }
  }

  // -- The traversal ------------------------------------------------------------------------------------

  /** The two hold the same files. */
  ghost predicate SameFiles(a: multiset<Entry>, b: multiset<Entry>) {
    forall item :: a[File(item)] == b[File(item)]
  }

  lemma TurnContributes(settings: Settings, list: Lister, top: seq<DriveFile>, q: Trail, files: seq<DriveFile>,
                        prefix: string, done: seq<Trail>, listed: multiset<Entry>, listed': multiset<Entry>)
    requires LeadsTo(list, top, q, files, prefix) && q != []
    requires SameFiles(listed, Sum(done, EntriesAt(settings, list, top)))
    requires listed' == listed + FilesIn(settings, files, prefix)
    ensures SameFiles(listed', Sum(done + [q] + StepsTo(false, q, files), EntriesAt(settings, list, top)))
  {
    var f := EntriesAt(settings, list, top);
    SumConcat<Trail, Entry>(done + [q], StepsTo(false, q, files), f);
    SumPush<Trail, Entry>(done, q, f);
    StepsContribute(settings, list, top, q, files, prefix);
    assert f(q) == multiset{Folder(FileAt(list, top, q).id, prefix)};
  }

  ghost predicate Accounted(settings: Settings, list: Lister, top: seq<DriveFile>, queue: seq<Queued>,
                            paths: seq<Trail>, done: seq<Trail>, items: seq<SourceItem>)
  {
    Explored(list, top, queue, paths, done) && SameFiles(Listed(items), Sum(done, EntriesAt(settings, list, top)))
  }

  lemma TurnKeeps(settings: Settings, list: Lister, top: seq<DriveFile>, queue: seq<Queued>, paths: seq<Trail>,
                  done: seq<Trail>, items: seq<SourceItem>, items': seq<SourceItem>)
    returns (paths': seq<Trail>, done': seq<Trail>)
    requires Accounted(settings, list, top, queue, paths, done, items) && queue != [] && list(queue[0].id).Ok?
    requires Listed(items') == Listed(items) + FilesIn(settings, list(queue[0].id).value, queue[0].prefix)
    ensures Accounted(settings, list, top, Enqueue(queue[1..], list(queue[0].id).value, queue[0].prefix), paths', done',
                      items')
  {
    var q, files := paths[0], list(queue[0].id).value;
    TurnExplores(list, top, queue, paths, done);
    TurnContributes(settings, list, top, q, files, queue[0].prefix, done, Listed(items), Listed(items'));
    paths', done' := paths[1..] + StepsTo(true, q, files), done + [q] + StepsTo(false, q, files);
  }

  lemma {:induction false} RootsEnqueued(roots: seq<string>)
    ensures RootQueue(roots) == Enqueue([], RootFiles(roots), "")
  {
    if roots != [] {
      var n := |roots| - 1;
      RootsEnqueued(roots[..n]);
      assert RootFiles(roots)[..|RootFiles(roots)| - 1] == RootFiles(roots[..n]);
    }
  }

  lemma {:induction false} RootsAreFolders(roots: seq<string>)
    ensures forall i :: 0 <= i < |RootFiles(roots)| ==> IsFolder(RootFiles(roots)[i])
  {
    if roots != [] {
      RootsAreFolders(roots[..|roots| - 1]);
    }
  }

  lemma RootsExplored(list: Lister, roots: seq<string>)
    ensures Explored(list, RootFiles(roots), RootQueue(roots), StepsTo(true, [], RootFiles(roots)), [])
  {
    var top := RootFiles(roots);
    var paths := StepsTo(true, [], top);
    RootsEnqueued(roots);
    EnqueuePositions(list, top, [], top, "", |top|, [], []);
    assert top[..|top|] == top && [] + paths == paths;
    StepsDistinct(true, [], top);
    assert [] + paths == paths;
    forall t | IsTrail(list, top, t) ensures Covered(paths, [], t) {
      RootsAreFolders(roots);
      StepsAre(true, [], top, t[..1]);
      ThroughOne(paths, t[..1], t);
    }
    forall t | t in paths ensures |t| == 1 {
      StepsAre(true, [], top, t);
    }
  }

  /** The turn at which the traversal is over. */
  ghost predicate Ends(list: Lister, start: seq<Queued>, n: nat) {
    AfterTurns(list, start, n).Err? || AfterTurns(list, start, n) == Ok([])
  }

  lemma {:induction false} ListedCounts(items: seq<SourceItem>)
    ensures forall item :: Listed(items)[File(item)] == multiset(items)[item]
  {
    if items != [] {
      var n := |items| - 1;
      ListedCounts(items[..n]);
      assert items == items[..n] + [items[n]];
      ListedPush(items[..n], items[n]);
    }
  }

  lemma Drained(settings: Settings, list: Lister, top: seq<DriveFile>, paths: seq<Trail>, done: seq<Trail>,
                items: seq<SourceItem>)
    requires Accounted(settings, list, top, [], paths, done, items)
    ensures !SomeFails(list, top) && AllTrails(list, top, done)
    ensures IsInventory(settings, list, top, done, Sort(items, (item: SourceItem) => item.id))
  {
    ListedCounts(items);
    SortSorts(items, (item: SourceItem) => item.id);
    assert done + paths == done;
    forall t ensures t in done <==> IsTrail(list, top, t) {
      if IsTrail(list, top, t) {
        assert Covered(paths, done, t);
      }
    }
  }

  lemma FrontFails(list: Lister, top: seq<DriveFile>, queue: seq<Queued>, paths: seq<Trail>)
    requires Positions(list, top, queue, paths) && queue != [] && list(queue[0].id).Err?
    ensures SomeFails(list, top) && FailsWith(list, top, list(queue[0].id).error)
  {
    assert QueuedAt(list, top, queue[0], paths[0]);
    assert FailsAt(list, top, paths[0]);
  }

  /** One turn of the loop on a folder that can be listed. */
  method Descend(settings: Settings, list: Lister, ghost top: seq<DriveFile>, queue: seq<Queued>,
                 items: seq<SourceItem>,
                 ghost paths: seq<Trail>, ghost done: seq<Trail>)
    returns (queue': seq<Queued>, items': seq<SourceItem>, ghost paths': seq<Trail>, ghost done': seq<Trail>)
    requires Accounted(settings, list, top, queue, paths, done, items) && queue != [] && list(queue[0].id).Ok?
    ensures queue' == Enqueue(queue[1..], list(queue[0].id).value, queue[0].prefix)
    ensures Accounted(settings, list, top, queue', paths', done', items')
  {
    queue', items' := VisitFiles(settings, list(queue[0].id).value, queue[0].prefix, queue[1..], items);
    paths', done' := TurnKeeps(settings, list, top, queue, paths, done, items, items');
  }

  /**
   * Whenever the traversal ends (`turns` says when), it fails exactly when some way down ends at a folder whose listing
   * fails, with such an error; otherwise it returns, in id order, one item for each way down to a file that passes the
   * filters.
   */
  method EnumerateRecursive(settings: Settings, list: Lister, ghost turns: nat)
    returns (r: Result<seq<SourceItem>, string>, ghost trails: seq<Trail>)
    requires Ends(list, RootQueue(settings.rootFolders), turns)
    ensures r.Err? <==> SomeFails(list, RootFiles(settings.rootFolders))
    ensures r.Err? ==> FailsWith(list, RootFiles(settings.rootFolders), r.error)
    ensures r.Ok? ==> AllTrails(list, RootFiles(settings.rootFolders), trails)
    ensures r.Ok? ==> IsInventory(settings, list, RootFiles(settings.rootFolders), trails, r.value)
    ensures r.Ok? ==> OnlyFiles(settings, list, RootFiles(settings.rootFolders), r.value)
  {
    var items: seq<SourceItem> := [];
    var queue := [];
    for k := 0 to |settings.rootFolders|
      invariant queue == RootQueue(settings.rootFolders[..k])
    {
      assert settings.rootFolders[..k + 1][..k] == settings.rootFolders[..k];
      queue := queue + [Queued(settings.rootFolders[k], "")];
    }
    assert settings.rootFolders[..|settings.rootFolders|] == settings.rootFolders;
    ghost var top, start, n: nat := RootFiles(settings.rootFolders), queue, 0;
    ghost var paths: seq<Trail> := StepsTo(true, [], top);
    trails := [];
    RootsExplored(list, settings.rootFolders);
    while queue != []
      invariant AtTurn(list, start, turns, n, queue)
      invariant Accounted(settings, list, top, queue, paths, trails, items)
      decreases turns - n
    {
      if list(queue[0].id).Err? {
        FrontFails(list, top, queue, paths);
        return Err(list(queue[0].id).error), trails;
      }
      n := NextTurn(list, start, turns, n, queue);
      queue, items, paths, trails := Descend(settings, list, top, queue, items, paths, trails);
    }
    Drained(settings, list, top, paths, trails, items);
    items := Sort(items, (item: SourceItem) => item.id);
    InventoryIsFiles(settings, list, top, trails, items);
    return Ok(items), trails;
  }

  /** The `n`-th turn, and the end has not been passed. */
  ghost predicate AtTurn(list: Lister, start: seq<Queued>, turns: nat, n: nat, queue: seq<Queued>) {
    Ends(list, start, turns) && n <= turns && AfterTurns(list, start, n) == Ok(queue)
  }

  lemma NextTurn(list: Lister, start: seq<Queued>, turns: nat, n: nat, queue: seq<Queued>) returns (next: nat)
    requires AtTurn(list, start, turns, n, queue) && queue != [] && list(queue[0].id).Ok?
    ensures AtTurn(list, start, turns, next, Enqueue(queue[1..], list(queue[0].id).value, queue[0].prefix)) && n < next
  {
    next := n + 1;
  }
}
