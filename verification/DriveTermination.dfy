/** When a Drive enumeration ends. */
module DriveTermination {
  import opened Seqs
  import opened Ids
  import opened Drive
  import opened DriveTrails

  /** The trail ends at the folder with this id. */
  ghost predicate FolderAt(list: Lister, files: seq<DriveFile>, t: Trail, id: string) {
    IsTrail(list, files, t) && IsFolder(FileAt(list, files, t)) && FileAt(list, files, t).id == id
  }

  ghost predicate Holds(list: Lister, files: seq<DriveFile>, id: string) {
    exists t {:trigger FolderAt(list, files, t, id)} :: FolderAt(list, files, t, id)
  }

  ghost predicate BelowItself(list: Lister, id: string) {
    Holds(list, Listing(list, id), id)
  }

  /** No folder that can be reached from the files is below itself. */
  ghost predicate NoCycle(list: Lister, files: seq<DriveFile>) {
    forall id {:trigger BelowItself(list, id)} :: Holds(list, files, id) ==> !BelowItself(list, id)
  }

  /** The folders of a Drive: they hold the roots and, with a folder, its subfolders. */
  ghost predicate IsDrive(list: Lister, top: seq<DriveFile>, scope: set<string>) {
    && (forall i :: 0 <= i < |top| && IsFolder(top[i]) ==> top[i].id in scope)
    && forall id :: id in scope ==> SubfoldersIn(Listing(list, id), scope)
  }

  ghost predicate SubfoldersIn(files: seq<DriveFile>, scope: set<string>) {
    forall i :: 0 <= i < |files| && IsFolder(files[i]) ==> files[i].id in scope
  }

  // -- Joining ways --------------------------------------------------------------------------

  lemma {:induction false} JoinTrails(list: Lister, files: seq<DriveFile>, t: Trail, mid: string, u: Trail, id: string)
    requires FolderAt(list, files, t, mid) && FolderAt(list, Listing(list, mid), u, id)
    ensures FolderAt(list, files, t + u, id)
    decreases |t|
  {
    if |t| == 1 {
      assert (t + u)[1..] == u;
    } else {
      assert (t + u)[1..] == t[1..] + u;
      JoinTrails(list, Inside(list, files[t[0]]), t[1..], mid, u, id);
    }
  }

  lemma HoldsThrough(list: Lister, files: seq<DriveFile>, mid: string, id: string)
    requires Holds(list, files, mid) && Holds(list, Listing(list, mid), id)
    ensures Holds(list, files, id)
  {
    var t :| FolderAt(list, files, t, mid);
    var u :| FolderAt(list, Listing(list, mid), u, id);
    JoinTrails(list, files, t, mid, u, id);
  }

  /** A way to a folder starts at a folder. */
  lemma FirstIsFolder(list: Lister, files: seq<DriveFile>, t: Trail)
    requires IsTrail(list, files, t) && IsFolder(FileAt(list, files, t))
    ensures IsFolder(files[t[0]])
  {
    if 1 < |t| {
      assert IsTrail(list, Inside(list, files[t[0]]), t[1..]);
    }
  }

  lemma HoldsChild(list: Lister, files: seq<DriveFile>, k: nat)
    requires k < |files| && IsFolder(files[k])
    ensures Holds(list, files, files[k].id)
  {
    assert FolderAt(list, files, [k], files[k].id);
  }

  // -- Turns from the front ------------------------------------------------------------------------

  lemma {:induction false} TurnFirst(list: Lister, queue: seq<Queued>, n: nat)
    ensures AfterTurns(list, queue, n + 1) ==
            match Turn(list, queue)
            case Err(e) => Err(e)
            case Ok(next) => AfterTurns(list, next, n)
  {
    if n == 0 {
      assert AfterTurns(list, queue, 0) == Ok(queue);
    } else {
      TurnFirst(list, queue, n - 1);
    }
  }

  ghost predicate EndsSometime(list: Lister, queue: seq<Queued>) {
    exists n: nat {:trigger Ends(list, queue, n)} :: Ends(list, queue, n)
  }

  lemma EndsNext(list: Lister, queue: seq<Queued>)
    requires Turn(list, queue).Ok? ==> EndsSometime(list, Turn(list, queue).value)
    ensures EndsSometime(list, queue)
  {
    if Turn(list, queue).Ok? {
      var n: nat :| Ends(list, Turn(list, queue).value, n);
      TurnFirst(list, queue, n);
      assert Ends(list, queue, n + 1);
    } else {
      TurnFirst(list, queue, 0);
      assert Ends(list, queue, 1);
    }
  }

  lemma {:induction false} EnqueueKeeps(queue: seq<Queued>, files: seq<DriveFile>, prefix: string)
    ensures queue <= Enqueue(queue, files, prefix)
  {
    if files != [] {
      EnqueueKeeps(queue, files[..|files| - 1], prefix);
    }
  }

  lemma {:induction false} EnqueueHas(queue: seq<Queued>, files: seq<DriveFile>, prefix: string, k: nat)
    returns (p: nat)
    requires k < |files| && IsFolder(files[k])
    ensures p < |Enqueue(queue, files, prefix)| && Enqueue(queue, files, prefix)[p].id == files[k].id
  {
    var n := |files| - 1;
    if k == n {
      p := |Enqueue(queue, files[..n], prefix)|;
    } else {
      p := EnqueueHas(queue, files[..n], prefix, k);
    }
  }

  // -- A failing folder is found -----------------------------------------------------------------------

  /** The folder itself fails, or one that can be reached from it by this way. */
  ghost predicate FailsBelow(list: Lister, id: string, t: Trail) {
    if t == [] then list(id).Err? else FailsAt(list, Listing(list, id), t)
  }

  lemma {:induction false} FailureEnds(list: Lister, queue: seq<Queued>, p: nat, t: Trail)
    requires p < |queue| && FailsBelow(list, queue[p].id, t)
    ensures EndsSometime(list, queue)
    decreases |t|, p
  {
    if list(queue[0].id).Ok? {
      var files := list(queue[0].id).value;
      if 0 < p {
        EnqueueKeeps(queue[1..], files, queue[0].prefix);
        FailureEnds(list, Enqueue(queue[1..], files, queue[0].prefix), p - 1, t);
      } else {
        FirstIsFolder(list, files, t);
        var next := EnqueueHas(queue[1..], files, queue[0].prefix, t[0]);
        FailureEnds(list, Enqueue(queue[1..], files, queue[0].prefix), next, t[1..]);
      }
    }
    EndsNext(list, queue);
  }

  // -- Without cycles and failures the levels run out -------------------------------------------------------

  /** The folders below one. */
  ghost function Descendants(list: Lister, scope: set<string>, id: string): set<string> {
    set g | g in scope && Holds(list, Listing(list, id), g)
  }

  ghost function Rank(list: Lister, scope: set<string>, id: string): nat {
    |Descendants(list, scope, id)|
  }

  lemma ChildRanksLower(list: Lister, top: seq<DriveFile>, scope: set<string>, id: string, k: nat)
    requires IsDrive(list, top, scope) && NoCycle(list, top) && id in scope && Holds(list, top, id)
    requires k < |Listing(list, id)| && IsFolder(Listing(list, id)[k])
    ensures var child := Listing(list, id)[k].id;
            child in scope && Holds(list, top, child) && Rank(list, scope, child) < Rank(list, scope, id)
  {
    var child := Listing(list, id)[k].id;
    assert SubfoldersIn(Listing(list, id), scope);
    HoldsChild(list, Listing(list, id), k);
    HoldsThrough(list, top, id, child);
    assert !BelowItself(list, child);
    forall g | g in Descendants(list, scope, child) ensures g in Descendants(list, scope, id) {
      HoldsThrough(list, Listing(list, id), child, g);
    }
    assert child in Descendants(list, scope, id) && child !in Descendants(list, scope, child);
    SmallerSet(Descendants(list, scope, child), Descendants(list, scope, id));
  }

  /** A reachable folder of low rank. */
  ghost predicate Low(list: Lister, top: seq<DriveFile>, scope: set<string>, x: Queued, bound: int) {
    x.id in scope && Holds(list, top, x.id) && Rank(list, scope, x.id) < bound
  }

  /** The first `m` are of rank below `bound`, the others one lower. */
  ghost predicate Level(list: Lister, top: seq<DriveFile>, scope: set<string>, queue: seq<Queued>, m: nat, bound: int) {
    m <= |queue| && forall i :: 0 <= i < |queue| ==> Low(list, top, scope, queue[i], if i < m then bound else bound - 1)
  }

  lemma {:induction false} LevelTurn(list: Lister, top: seq<DriveFile>, scope: set<string>, x: Queued,
                                     rest: seq<Queued>, m: nat, bound: int, k: nat)
    requires IsDrive(list, top, scope) && NoCycle(list, top)
    requires Low(list, top, scope, x, bound) && Level(list, top, scope, rest, m, bound) && k <= |Listing(list, x.id)|
    ensures Level(list, top, scope, Enqueue(rest, Listing(list, x.id)[..k], x.prefix), m, bound)
  {
    if 0 < k {
      var files := Listing(list, x.id);
      LevelTurn(list, top, scope, x, rest, m, bound, k - 1);
      assert files[..k][..k - 1] == files[..k - 1];
      if IsFolder(files[k - 1]) {
        ChildRanksLower(list, top, scope, x.id, k - 1);
      }
    }
  }

  lemma {:induction false} LevelsEnd(list: Lister, top: seq<DriveFile>, scope: set<string>, queue: seq<Queued>, m: nat,
                                     bound: nat)
    requires IsDrive(list, top, scope) && NoCycle(list, top) && Level(list, top, scope, queue, m, bound)
    ensures EndsSometime(list, queue)
    decreases bound, m
  {
    if queue == [] {
      assert Ends(list, queue, 0);
    } else if m == 0 {
      assert Low(list, top, scope, queue[0], bound - 1);
      LevelsEnd(list, top, scope, queue, |queue|, bound - 1);
    } else {
      var x := queue[0];
      assert Low(list, top, scope, x, bound);
      if list(x.id).Ok? {
        assert Level(list, top, scope, queue[1..], m - 1, bound);
        LevelTurn(list, top, scope, x, queue[1..], m - 1, bound, |Listing(list, x.id)|);
        assert Listing(list, x.id)[..|Listing(list, x.id)|] == Listing(list, x.id);
        LevelsEnd(list, top, scope, Turn(list, queue).value, m - 1, bound);
      }
      EndsNext(list, queue);
    }
  }

  lemma {:induction false} RootAt(roots: seq<string>, k: nat)
    requires k < |roots|
    ensures |RootFiles(roots)| == |RootQueue(roots)| == |roots|
    ensures RootFiles(roots)[k] == RootFile(roots[k]) && RootQueue(roots)[k] == Queued(roots[k], "")
  {
    var n := |roots| - 1;
    RootSizes(roots[..n]);
    if k < n {
      RootAt(roots[..n], k);
    }
  }

  lemma {:induction false} RootSizes(roots: seq<string>)
    ensures |RootFiles(roots)| == |RootQueue(roots)| == |roots|
  {
    if roots != [] {
      RootSizes(roots[..|roots| - 1]);
    }
  }

  lemma AcyclicEnds(list: Lister, roots: seq<string>, scope: set<string>)
    requires IsDrive(list, RootFiles(roots), scope) && NoCycle(list, RootFiles(roots))
    ensures EndsSometime(list, RootQueue(roots))
  {
    var queue := RootQueue(roots);
    RootSizes(roots);
    forall i | 0 <= i < |queue| ensures Low(list, RootFiles(roots), scope, queue[i], |scope| + 1) {
      RootAt(roots, i);
      HoldsChild(list, RootFiles(roots), i);
      SubsetSize(Descendants(list, scope, roots[i]), scope);
    }
    LevelsEnd(list, RootFiles(roots), scope, queue, |queue|, |scope| + 1);
  }

  lemma SomeFailureEnds(list: Lister, roots: seq<string>)
    requires SomeFails(list, RootFiles(roots))
    ensures EndsSometime(list, RootQueue(roots))
  {
    var t :| FailsAt(list, RootFiles(roots), t);
    RootSizes(roots);
    RootAt(roots, t[0]);
    FailureEnds(list, RootQueue(roots), t[0], t[1..]);
  }

  // -- Cycles --------------------------------------------------------------------------------------------

  /** Each of these folders can be listed and has a subfolder among them. */
  ghost predicate Endless(list: Lister, folders: set<string>) {
    forall id {:trigger HasSubfolderIn(list, id, folders)} :: id in folders ==> HasSubfolderIn(list, id, folders)
  }

  ghost predicate HasSubfolderIn(list: Lister, id: string, folders: set<string>) {
    SomeFolderIn(Listing(list, id), folders)
  }

  ghost predicate SomeFolderIn(files: seq<DriveFile>, folders: set<string>) {
    exists i :: 0 <= i < |files| && IsFolder(files[i]) && files[i].id in folders
  }

  ghost predicate Meets(queue: seq<Queued>, folders: set<string>) {
    exists i :: 0 <= i < |queue| && queue[i].id in folders
  }

  lemma EnqueueMeets(queue: seq<Queued>, files: seq<DriveFile>, prefix: string, folders: set<string>)
    requires Meets(queue, folders) || SomeFolderIn(files, folders)
    ensures Meets(Enqueue(queue, files, prefix), folders)
  {
    if Meets(queue, folders) {
      EnqueueKeeps(queue, files, prefix);
      var i :| 0 <= i < |queue| && queue[i].id in folders;
      assert Enqueue(queue, files, prefix)[i].id in folders;
    } else {
      var k :| 0 <= k < |files| && IsFolder(files[k]) && files[k].id in folders;
      var p := EnqueueHas(queue, files, prefix, k);
    }
  }

  lemma TurnMeets(list: Lister, queue: seq<Queued>, folders: set<string>)
    requires Endless(list, folders) && Meets(queue, folders) && list(queue[0].id).Ok?
    ensures Meets(Enqueue(queue[1..], list(queue[0].id).value, queue[0].prefix), folders)
  {
    var i :| 0 <= i < |queue| && queue[i].id in folders;
    if i == 0 {
      assert HasSubfolderIn(list, queue[0].id, folders);
    } else {
      assert queue[1..][i - 1] == queue[i];
    }
    EnqueueMeets(queue[1..], list(queue[0].id).value, queue[0].prefix, folders);
  }

  /** From a folder that keeps leading back into the set the queue never runs dry. */
  lemma {:induction false} CyclesNeverDrain(list: Lister, start: seq<Queued>, folders: set<string>, n: nat)
    requires Endless(list, folders) && Meets(start, folders)
    ensures AfterTurns(list, start, n).Ok? ==> Meets(AfterTurns(list, start, n).value, folders)
  {
    if n == 0 {
      assert AfterTurns(list, start, 0) == Ok(start);
    } else if AfterTurns(list, start, n).Ok? {
      CyclesNeverDrain(list, start, folders, n - 1);
      TurnMeets(list, AfterTurns(list, start, n - 1).value, folders);
    }
  }

  /** The folders from which a folder below itself can be reached. */
  ghost function Leading(list: Lister, scope: set<string>, c: string): set<string> {
    set id | id in scope && Holds(list, Listing(list, id), c)
  }

  lemma FirstStep(list: Lister, files: seq<DriveFile>, c: string) returns (k: nat)
    requires Holds(list, files, c)
    ensures k < |files| && IsFolder(files[k]) && (files[k].id == c || Holds(list, Listing(list, files[k].id), c))
  {
    var t :| FolderAt(list, files, t, c);
    k := t[0];
    FirstIsFolder(list, files, t);
    if 1 < |t| {
      assert FolderAt(list, Listing(list, files[k].id), t[1..], c);
    }
  }

  lemma LeadingIsEndless(list: Lister, top: seq<DriveFile>, scope: set<string>, c: string)
    requires IsDrive(list, top, scope) && BelowItself(list, c)
    ensures Endless(list, Leading(list, scope, c))
  {
    var folders := Leading(list, scope, c);
    forall id | id in folders ensures HasSubfolderIn(list, id, folders) {
      var k := FirstStep(list, Listing(list, id), c);
      assert SubfoldersIn(Listing(list, id), scope);
      assert Listing(list, id)[k].id in folders;
    }
  }

  lemma CycleMeets(list: Lister, roots: seq<string>, scope: set<string>, c: string)
    requires IsDrive(list, RootFiles(roots), scope) && Holds(list, RootFiles(roots), c) && BelowItself(list, c)
    ensures Meets(RootQueue(roots), Leading(list, scope, c))
  {
    var k := FirstStep(list, RootFiles(roots), c);
    RootSizes(roots);
    RootAt(roots, k);
    assert RootQueue(roots)[k].id in Leading(list, scope, c);
  }

  lemma {:induction false} TurnsExplore(list: Lister, roots: seq<string>, n: nat) returns (paths: seq<Trail>)
    requires AfterTurns(list, RootQueue(roots), n).Ok?
    ensures Positions(list, RootFiles(roots), AfterTurns(list, RootQueue(roots), n).value, paths)
  {
    if n == 0 {
      RootsExplored(list, roots);
      paths := StepsTo(true, [], RootFiles(roots));
    } else {
      var before := TurnsExplore(list, roots, n - 1);
      var queue := AfterTurns(list, RootQueue(roots), n - 1).value;
      if queue == [] {
        paths := before;
      } else {
        var files := list(queue[0].id).value;
        assert QueuedAt(list, RootFiles(roots), queue[0], before[0]);
        assert Positions(list, RootFiles(roots), queue[1..], before[1..]);
        EnqueuePositions(list, RootFiles(roots), before[0], files, queue[0].prefix, |files|, queue[1..], before[1..]);
        assert files[..|files|] == files;
        paths := before[1..] + StepsTo(true, before[0], files);
      }
    }
  }

  lemma {:induction false} ErrorIsFound(list: Lister, roots: seq<string>, n: nat)
    requires AfterTurns(list, RootQueue(roots), n).Err?
    ensures SomeFails(list, RootFiles(roots))
  {
    if AfterTurns(list, RootQueue(roots), n - 1).Err? {
      ErrorIsFound(list, roots, n - 1);
    } else {
      var paths := TurnsExplore(list, roots, n - 1);
      FrontFails(list, RootFiles(roots), AfterTurns(list, RootQueue(roots), n - 1).value, paths);
    }
  }

  /**
   * On a Drive of finitely many folders the traversal ends exactly when no folder that can be reached from the roots is
   * below itself, or the listing of some folder that can be reached fails.
   */
  lemma EndsIff(list: Lister, roots: seq<string>, scope: set<string>)
    requires IsDrive(list, RootFiles(roots), scope)
    ensures EndsSometime(list, RootQueue(roots)) <==>
            NoCycle(list, RootFiles(roots)) || SomeFails(list, RootFiles(roots))
  {
    if NoCycle(list, RootFiles(roots)) {
      AcyclicEnds(list, roots, scope);
    } else if SomeFails(list, RootFiles(roots)) {
      SomeFailureEnds(list, roots);
    } else {
      var c :| Holds(list, RootFiles(roots), c) && BelowItself(list, c);
      LeadingIsEndless(list, RootFiles(roots), scope, c);
      CycleMeets(list, roots, scope, c);
      forall n: nat ensures !Ends(list, RootQueue(roots), n) {
        CyclesNeverDrain(list, RootQueue(roots), Leading(list, scope, c), n);
        NoError(list, roots, n);
      }
    }
  }

  lemma NoError(list: Lister, roots: seq<string>, n: nat)
    ensures AfterTurns(list, RootQueue(roots), n).Err? ==> SomeFails(list, RootFiles(roots))
  {
    if AfterTurns(list, RootQueue(roots), n).Err? {
      ErrorIsFound(list, roots, n);
    }
  }
}
