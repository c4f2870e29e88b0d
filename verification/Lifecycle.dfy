/** File lifecycle: archiving source objects by copy and delete over an unreliable bucket. */
module Lifecycle {
  import opened Ids

  type Content = string
  type Objects = map<string, Content>

  /** How a request ends: carried out, lost on the way there, or carried out with the response lost. */
  datatype Answer = Done | LostRequest | LostResponse

  function CopyIn(b: Objects, source: string, dest: string, a: Answer): (Objects, bool) {
    if source !in b || a.LostRequest? then (b, false) else (b[dest := b[source]], a.Done?)
  }

  function DeleteIn(b: Objects, name: string, a: Answer): (Objects, bool) {
    if name !in b || a.LostRequest? then (b, false) else (b - {name}, a.Done?)
  }

  // -- Names -------------------------------------------------------------------------

  /** The part after the last '/'. */
  function Basename(name: string): string {
    if '/' !in name then name else Basename(name[1..])
  }

  function TrimSlashes(s: string): string {
    if s != [] && s[|s| - 1] == '/' then TrimSlashes(s[..|s| - 1]) else s
  }

  /** The archive prefix of a run. */
  function HistoricalPrefix(prefix: string, runId: string): string {
    if runId == "" then TrimSlashes(prefix) + "/" else TrimSlashes(prefix) + "/" + runId + "/"
  }

  function DestName(destPrefix: string, object_: string): string {
    destPrefix + Basename(object_)
  }

  lemma {:induction false} BasenameHasNoSlash(name: string)
    ensures '/' !in Basename(name)
  {
    if '/' in name {
      BasenameHasNoSlash(name[1..]);
    }
  }

  lemma {:induction false} BasenameAfterSlash(dir: string, file: string)
    requires '/' !in file
    ensures Basename(dir + "/" + file) == file
  {
    var name := dir + "/" + file;
    assert name[|dir|] == '/';
    if dir == [] {
      assert name[1..] == file;
    } else {
      assert name[1..] == dir[1..] + "/" + file;
      BasenameAfterSlash(dir[1..], file);
    }
  }

  predicate AllSlashes(s: string) {
    forall i :: 0 <= i < |s| ==> s[i] == '/'
  }

  lemma {:induction false} TrimmedSlashes(prefix: string, slashes: string)
    requires (prefix == "" || prefix[|prefix| - 1] != '/') && AllSlashes(slashes)
    ensures TrimSlashes(prefix + slashes) == prefix
  {
    var s := prefix + slashes;
    if slashes == [] {
      assert s == prefix;
    } else {
      assert s[|s| - 1] == slashes[|slashes| - 1] == '/';
      assert s[..|s| - 1] == prefix + slashes[..|slashes| - 1];
      TrimmedSlashes(prefix, slashes[..|slashes| - 1]);
    }
  }

  /**
   * What follows the last '/' of an object's name, or all of it, is archived under the prefix without the slashes it
   * ends in and, unless that is empty, the run.
   */
  lemma ArchiveName(prefix: string, slashes: string, runId: string, dir: string, file: string, name: string)
    requires (prefix == "" || prefix[|prefix| - 1] != '/') && AllSlashes(slashes)
    requires '/' !in file && (name == file || name == dir + "/" + file)
    ensures DestName(HistoricalPrefix(prefix + slashes, runId), name) ==
            prefix + "/" + (if runId == "" then "" else runId + "/") + file
  {
    TrimmedSlashes(prefix, slashes);
    if name != file {
      BasenameAfterSlash(dir, file);
    }
    assert Basename(name) == file;
    if runId == "" {
      assert prefix + "/" + "" == prefix + "/";
    } else {
      assert prefix + "/" + (runId + "/") == prefix + "/" + runId + "/";
    }
  }

  lemma SplitAtLast(a: string, b: string, x: string, y: string)
    requires '/' !in x && '/' !in y && a + "/" + x == b + "/" + y
    ensures a == b && x == y
  {
    var s := a + "/" + x;
    assert s == b + "/" + y;
    assert forall i :: |a| < i < |s| ==> s[i] == x[i - |a| - 1];
    assert forall i :: |b| < i < |s| ==> s[i] == y[i - |b| - 1];
    assert s[|a|] == '/' && s[|b|] == '/';
    assert |a| == |b|;
    assert a == s[..|a|] && b == s[..|b|] && x == s[|a| + 1..] && y == s[|b| + 1..];
  }

  /** The archive name determines the run and the basename: archives of different runs never meet. */
  lemma ArchiveNameIdentifies(prefix: string, run1: string, run2: string, object1: string, object2: string)
    ensures DestName(HistoricalPrefix(prefix, run1), object1) == DestName(HistoricalPrefix(prefix, run2), object2) <==>
            run1 == run2 && Basename(object1) == Basename(object2)
  {
    var p, x, y := TrimSlashes(prefix), Basename(object1), Basename(object2);
    BasenameHasNoSlash(object1);
    BasenameHasNoSlash(object2);
    if DestName(HistoricalPrefix(prefix, run1), object1) == DestName(HistoricalPrefix(prefix, run2), object2) {
      var a, b := RunFolder(p, run1), RunFolder(p, run2);
      assert HistoricalPrefix(prefix, run1) == a + "/" && HistoricalPrefix(prefix, run2) == b + "/";
      SplitAtLast(a, b, x, y);
      FolderIdentifies(p, run1, run2);
    }
  }

  function RunFolder(p: string, runId: string): string {
    if runId == "" then p else p + "/" + runId
  }

  lemma FolderIdentifies(p: string, run1: string, run2: string)
    requires RunFolder(p, run1) == RunFolder(p, run2)
    ensures run1 == run2
  {
    assert run1 == (if run1 == "" then "" else RunFolder(p, run1)[|p| + 1..]);
    assert run2 == (if run2 == "" then "" else RunFolder(p, run2)[|p| + 1..]);
    assert |RunFolder(p, run1)| == |p| + (if run1 == "" then 0 else 1 + |run1|);
  }

  // -- The move loop -----------------------------------------------------------------------

  /** The bucket after each request, and whether every request was answered. */
  datatype Run = Run(states: seq<Objects>, ok: bool)

  function MoveRun(b: Objects, objects: seq<string>, destPrefix: string, answers: nat -> Answer, n: nat): Run
    decreases |objects|
  {
    if objects == [] then Run([], true)
    else
      var (b1, copied) := CopyIn(b, objects[0], DestName(destPrefix, objects[0]), answers(n));
      if !copied then Run([b1], false)
      else
        var (b2, deleted) := DeleteIn(b1, objects[0], answers(n + 1));
        if !deleted then Run([b1, b2], false)
        else
          var rest := MoveRun(b2, objects[1..], destPrefix, answers, n + 2);
          Run([b1, b2] + rest.states, rest.ok)
  }

  function Final(b: Objects, run: Run): Objects {
    if run.states == [] then b else run.states[|run.states| - 1]
  }

  class Bucket {
    var objects: Objects
    /** Every state the bucket has been in since the last `history := []`. */
    ghost var history: seq<Objects>

    method CopyObject(source: string, dest: string, a: Answer) returns (ok: bool)
      modifies this
      ensures (objects, ok) == CopyIn(old(objects), source, dest, a) && history == old(history) + [objects]
    {
      ok := false;
      if source in objects && !a.LostRequest? {
        objects := objects[dest := objects[source]];
        ok := a.Done?;
      }
      history := history + [objects];
    }

    method DeleteObject(name: string, a: Answer) returns (ok: bool)
      modifies this
      ensures (objects, ok) == DeleteIn(old(objects), name, a) && history == old(history) + [objects]
    {
      ok := false;
      if name in objects && !a.LostRequest? {
        objects := objects - {name};
        ok := a.Done?;
      }
      history := history + [objects];
    }

    /** Copy then delete, object by object; the first request that is not answered ends the move. */
    method MoveObjects(names: seq<string>, destPrefix: string, answers: nat -> Answer) returns (ok: bool)
      modifies this
      ensures var run := MoveRun(old(objects), names, destPrefix, answers, 0);
              ok == run.ok && objects == Final(old(objects), run) && history == old(history) + run.states
    {
      ghost var whole := Pending(history, objects, MoveRun(objects, names, destPrefix, answers, 0));
      for k := 0 to |names|
        invariant whole == Pending(history, objects, MoveRun(objects, names[k..], destPrefix, answers, 2 * k))
      {
        Unfold(history, objects, names, k, destPrefix, answers);
        ok := CopyObject(names[k], DestName(destPrefix, names[k]), answers(2 * k));
        if !ok {
          return;
        }
        ok := DeleteObject(names[k], answers(2 * k + 1));
        if !ok {
          return;
        }
      }
      ok := true;
    }

    /** The configured move to the historical folder of the run. */
    method MoveToHistorical(historicalPrefix: string, runId: string, names: seq<string>, answers: nat -> Answer)
      returns (ok: bool)
      modifies this
      ensures var run := MoveRun(old(objects), names, HistoricalPrefix(historicalPrefix, runId), answers, 0);
              ok == run.ok && objects == Final(old(objects), run) && history == old(history) + run.states
    {
      var destPrefix := TrimSlashes(historicalPrefix) + (if runId == "" then "" else "/") + "/";
      if runId != "" {
        destPrefix := TrimSlashes(historicalPrefix) + "/" + runId + "/";
      }
      assert destPrefix == HistoricalPrefix(historicalPrefix, runId);
      ok := MoveObjects(names, destPrefix, answers);
    }
  }

  /** Where a run that starts after `history` with the bucket at `b` ends. */
  ghost function Pending(history: seq<Objects>, b: Objects, run: Run): (seq<Objects>, Objects, bool) {
    (history + run.states, Final(b, run), run.ok)
  }

  lemma Unfold(h: seq<Objects>, b: Objects, names: seq<string>, k: nat, destPrefix: string, answers: nat -> Answer)
    requires k < |names|
    ensures var run := MoveRun(b, names[k..], destPrefix, answers, 2 * k);
            var (b1, copied) := CopyIn(b, names[k], DestName(destPrefix, names[k]), answers(2 * k));
            var (b2, deleted) := DeleteIn(b1, names[k], answers(2 * k + 1));
            Pending(h, b, run) ==
            if !copied then (h + [b1], b1, false)
            else if !deleted then (h + [b1] + [b2], b2, false)
            else Pending(h + [b1] + [b2], b2, MoveRun(b2, names[k + 1..], destPrefix, answers, 2 * (k + 1)))
  {
    assert names[k..][0] == names[k] && names[k..][1..] == names[k + 1..];
    var (b1, copied) := CopyIn(b, names[k], DestName(destPrefix, names[k]), answers(2 * k));
    var (b2, deleted) := DeleteIn(b1, names[k], answers(2 * k + 1));
    assert h + [b1, b2] == h + [b1] + [b2];
    var rest := MoveRun(b2, names[k + 1..], destPrefix, answers, 2 * (k + 1));
    assert h + ([b1, b2] + rest.states) == h + [b1] + [b2] + rest.states;
  }

  // -- Nothing is lost ---------------------------------------------------------------------------

  ghost predicate HoldsAt(s: Objects, name: string, c: Content) {
    name in s && s[name] == c
  }

  /** The content of each listed object is under its own name or under its destination. */
  ghost predicate Kept(b: Objects, objects: seq<string>, destPrefix: string, s: Objects) {
    forall i :: 0 <= i < |objects| && objects[i] in b ==>
      HoldsAt(s, objects[i], b[objects[i]]) || HoldsAt(s, DestName(destPrefix, objects[i]), b[objects[i]])
  }

  ghost predicate DistinctBasenames(objects: seq<string>) {
    forall i, j :: 0 <= i < j < |objects| ==> Basename(objects[i]) != Basename(objects[j])
  }

  /** No destination is its own source or a source still to be moved. */
  ghost predicate NoClash(objects: seq<string>, destPrefix: string) {
    forall i, j :: 0 <= i <= j < |objects| ==> DestName(destPrefix, objects[i]) != objects[j]
  }

  ghost predicate Involved(objects: seq<string>, destPrefix: string, name: string) {
    exists i :: 0 <= i < |objects| && (name == objects[i] || name == DestName(destPrefix, objects[i]))
  }

  lemma InvolvedStep(objects: seq<string>, destPrefix: string, name: string)
    requires objects != []
    ensures Involved(objects, destPrefix, name) <==>
            name == objects[0] || name == DestName(destPrefix, objects[0]) || Involved(objects[1..], destPrefix, name)
  {
    if Involved(objects[1..], destPrefix, name) {
      var i :| 0 <= i < |objects[1..]| && (name == objects[1..][i] || name == DestName(destPrefix, objects[1..][i]));
      assert objects[i + 1] == objects[1..][i];
    }
    if Involved(objects, destPrefix, name) {
      var i :| 0 <= i < |objects| && (name == objects[i] || name == DestName(destPrefix, objects[i]));
      assert i == 0 || objects[1..][i - 1] == objects[i];
    }
  }

  ghost predicate SameAt(b: Objects, s: Objects, name: string) {
    (name in b <==> name in s) && (name in b ==> b[name] == s[name])
  }

  /** No request touches a name that is neither a source nor a destination. */
  lemma {:induction false} OthersUntouched(b: Objects, objects: seq<string>, destPrefix: string, answers: nat -> Answer,
                                           n: nat, name: string)
    requires !Involved(objects, destPrefix, name)
    ensures forall s :: s in MoveRun(b, objects, destPrefix, answers, n).states ==> SameAt(b, s, name)
    decreases |objects|
  {
    if objects != [] {
      InvolvedStep(objects, destPrefix, name);
      var (b1, copied) := CopyIn(b, objects[0], DestName(destPrefix, objects[0]), answers(n));
      if copied {
        var (b2, deleted) := DeleteIn(b1, objects[0], answers(n + 1));
        if deleted {
          OthersUntouched(b2, objects[1..], destPrefix, answers, n + 2, name);
        }
      }
    }
  }

  lemma TailOf(objects: seq<string>, destPrefix: string)
    requires objects != []
    ensures forall i :: 0 <= i < |objects[1..]| ==> objects[1..][i] == objects[i + 1]
    ensures NoClash(objects, destPrefix) ==>
              && NoClash(objects[1..], destPrefix)
              && forall i :: 0 <= i < |objects| ==> DestName(destPrefix, objects[0]) != objects[i]
    ensures DistinctBasenames(objects) ==> DistinctBasenames(objects[1..])
  {
    assert forall i :: 0 <= i < |objects[1..]| ==> objects[1..][i] == objects[i + 1];
  }

  /** Once moved, an object without a later namesake is not written over or deleted. */
  lemma ArchiveIsFree(objects: seq<string>, destPrefix: string)
    requires objects != [] && NoClash(objects, destPrefix)
    requires forall j :: 0 < j < |objects| ==> Basename(objects[j]) != Basename(objects[0])
    ensures !Involved(objects[1..], destPrefix, DestName(destPrefix, objects[0]))
  {
    TailOf(objects, destPrefix);
    forall i | 0 <= i < |objects[1..]|
      ensures objects[1..][i] != DestName(destPrefix, objects[0])
      ensures DestName(destPrefix, objects[1..][i]) != DestName(destPrefix, objects[0])
    {
      DestIdentifies(destPrefix, objects[0], objects[i + 1]);
    }
  }

  lemma DestIdentifies(destPrefix: string, a: string, b: string)
    ensures DestName(destPrefix, a) == DestName(destPrefix, b) <==> Basename(a) == Basename(b)
  {
    assert Basename(a) == DestName(destPrefix, a)[|destPrefix|..];
    assert Basename(b) == DestName(destPrefix, b)[|destPrefix|..];
  }

  /**
   * For sources with distinct basenames, none of them the destination of itself or of an earlier one: after every
   * request, answered or not, each original content is under its source or its destination.
   */
  lemma {:induction false} NothingIsLost(b: Objects, objects: seq<string>, destPrefix: string, answers: nat -> Answer,
                                         n: nat)
    requires DistinctBasenames(objects) && NoClash(objects, destPrefix)
    ensures forall s :: s in MoveRun(b, objects, destPrefix, answers, n).states ==> Kept(b, objects, destPrefix, s)
    decreases |objects|
  {
    if objects != [] {
      var dest := DestName(destPrefix, objects[0]);
      TailOf(objects, destPrefix);
      var (b1, copied) := CopyIn(b, objects[0], dest, answers(n));
      if copied {
        var (b2, deleted) := DeleteIn(b1, objects[0], answers(n + 1));
        if deleted {
          NothingIsLost(b2, objects[1..], destPrefix, answers, n + 2);
          KeptTail(b, b2, objects, destPrefix, answers, n);
        }
      }
    }
  }

  lemma KeptTail(b: Objects, b2: Objects, objects: seq<string>, destPrefix: string, answers: nat -> Answer, n: nat)
    requires objects != [] && DistinctBasenames(objects) && NoClash(objects, destPrefix) && objects[0] in b
    requires b2 == b[DestName(destPrefix, objects[0]) := b[objects[0]]] - {objects[0]}
    requires forall s :: s in MoveRun(b2, objects[1..], destPrefix, answers, n + 2).states ==>
               Kept(b2, objects[1..], destPrefix, s)
    ensures forall s :: s in MoveRun(b2, objects[1..], destPrefix, answers, n + 2).states ==>
            Kept(b, objects, destPrefix, s)
  {
    var dest, tail := DestName(destPrefix, objects[0]), objects[1..];
    TailOf(objects, destPrefix);
    ArchiveIsFree(objects, destPrefix);
    OthersUntouched(b2, tail, destPrefix, answers, n + 2, dest);
    forall s | s in MoveRun(b2, tail, destPrefix, answers, n + 2).states ensures Kept(b, objects, destPrefix, s) {
      assert Kept(b2, tail, destPrefix, s) && SameAt(b2, s, dest);
      forall i | 0 <= i < |objects| && objects[i] in b
        ensures HoldsAt(s, objects[i], b[objects[i]]) || HoldsAt(s, DestName(destPrefix, objects[i]), b[objects[i]])
      {
        if 0 < i {
          assert tail[i - 1] == objects[i];
          assert Basename(objects[0]) != Basename(objects[i]);
        }
      }
    }
  }

  // -- What a successful move leaves ------------------------------------------------------------------

  /** The bucket once the first `k` objects have been moved. */
  function After(b: Objects, objects: seq<string>, destPrefix: string, k: nat): Objects
    requires k <= |objects|
  {
    if k == 0 then b
    else
      var s, o := After(b, objects, destPrefix, k - 1), objects[k - 1];
      if o in s then s[DestName(destPrefix, o) := s[o]] - {o} else s
  }

  /** The `j`-th object is in the bucket when its turn comes. */
  ghost predicate InTurn(b: Objects, objects: seq<string>, destPrefix: string, j: nat)
    requires j < |objects|
  {
    objects[j] in After(b, objects, destPrefix, j)
  }

  /** Each of the first `m` objects is in the bucket when its turn comes. */
  ghost predicate Present(b: Objects, objects: seq<string>, destPrefix: string, m: nat)
    requires m <= |objects|
  {
    forall j: nat {:trigger InTurn(b, objects, destPrefix, j)} :: j < m ==> InTurn(b, objects, destPrefix, j)
  }

  /** The content found at the `j`-th object in its turn. */
  ghost function Brought(b: Objects, objects: seq<string>, destPrefix: string, j: nat): Content
    requires j < |objects| && InTurn(b, objects, destPrefix, j)
  {
    After(b, objects, destPrefix, j)[objects[j]]
  }

  lemma AfterStep(b: Objects, objects: seq<string>, destPrefix: string, m: nat, name: string)
    requires 0 < m <= |objects| && InTurn(b, objects, destPrefix, m - 1)
    ensures var s, s', o := After(b, objects, destPrefix, m - 1), After(b, objects, destPrefix, m), objects[m - 1];
            && o in s && (name in s' <==> name != o && (name == DestName(destPrefix, o) || name in s))
            && (name in s' ==> s'[name] == if name == DestName(destPrefix, o) then s[o] else s[name])
  {
  }

  lemma {:induction false} AfterFirst(b: Objects, objects: seq<string>, destPrefix: string, k: nat)
    requires k < |objects| && objects[0] in b
    ensures After(b, objects, destPrefix, k + 1) ==
            After(b[DestName(destPrefix, objects[0]) := b[objects[0]]] - {objects[0]}, objects[1..], destPrefix, k)
  {
    if k == 0 {
      assert After(b, objects, destPrefix, 0) == b;
    } else {
      AfterFirst(b, objects, destPrefix, k - 1);
      assert objects[1..][k - 1] == objects[k];
    }
  }

  /** A successful run finds every object in its turn and ends where all have been moved. */
  lemma {:induction false} SuccessMovesAll(b: Objects, objects: seq<string>, destPrefix: string, answers: nat -> Answer,
                                           n: nat)
    requires MoveRun(b, objects, destPrefix, answers, n).ok
    ensures Present(b, objects, destPrefix, |objects|)
    ensures Final(b, MoveRun(b, objects, destPrefix, answers, n)) == After(b, objects, destPrefix, |objects|)
    decreases |objects|
  {
    if objects != [] {
      var b2, tail := b[DestName(destPrefix, objects[0]) := b[objects[0]]] - {objects[0]}, objects[1..];
      SuccessMovesAll(b2, tail, destPrefix, answers, n + 2);
      AfterFirst(b, objects, destPrefix, |objects| - 1);
      forall j: nat | j < |objects| ensures InTurn(b, objects, destPrefix, j) {
        if 0 < j {
          AfterFirst(b, objects, destPrefix, j - 1);
          assert InTurn(b2, tail, destPrefix, j - 1) && tail[j - 1] == objects[j];
        }
      }
    }
  }

  function NamesakeUpTo(objects: seq<string>, i: nat, k: nat): (last: nat)
    requires i <= k < |objects|
    ensures i <= last <= k && Basename(objects[last]) == Basename(objects[i])
    ensures forall j :: last < j <= k ==> Basename(objects[j]) != Basename(objects[i])
  {
    if Basename(objects[k]) == Basename(objects[i]) then k else NamesakeUpTo(objects, i, k - 1)
  }

  /** The last object with this one's basename. */
  function LastNamesake(objects: seq<string>, i: nat): nat
    requires i < |objects|
  {
    NamesakeUpTo(objects, i, |objects| - 1)
  }

  /** The last of the first `k` objects that is moved to `name`. */
  function LastMovedTo(objects: seq<string>, destPrefix: string, k: nat, name: string): (j: Option<nat>)
    requires k <= |objects|
    ensures j.Some? ==> j.value < k
  {
    if k == 0 then None
    else if DestName(destPrefix, objects[k - 1]) == name then Some(k - 1)
    else LastMovedTo(objects, destPrefix, k - 1, name)
  }

  /**
   * The object whose content is found at the `k`-th object in its turn: its own, unless another was moved there
   * before.
   */
  function Origin(objects: seq<string>, destPrefix: string, k: nat): (o: nat)
    requires k < |objects|
    ensures o <= k
  {
    var j := LastMovedTo(objects, destPrefix, k, objects[k]);
    if j.Some? then Origin(objects, destPrefix, j.value) else k
  }

  lemma {:induction false} Trace(b: Objects, objects: seq<string>, destPrefix: string, k: nat, name: string)
    requires k <= |objects| && Present(b, objects, destPrefix, k) && name in After(b, objects, destPrefix, k)
    ensures var j := LastMovedTo(objects, destPrefix, k, name);
            if j.None? then name in b && After(b, objects, destPrefix, k)[name] == b[name]
            else InTurn(b, objects, destPrefix, j.value)
                 && After(b, objects, destPrefix, k)[name] == Brought(b, objects, destPrefix, j.value)
  {
    if 0 < k {
      assert InTurn(b, objects, destPrefix, k - 1);
      AfterStep(b, objects, destPrefix, k, name);
      if DestName(destPrefix, objects[k - 1]) != name {
        Trace(b, objects, destPrefix, k - 1, name);
      }
    }
  }

  lemma {:induction false} CarriesOrigin(b: Objects, objects: seq<string>, destPrefix: string, k: nat)
    requires k < |objects| && Present(b, objects, destPrefix, k) && InTurn(b, objects, destPrefix, k)
    ensures objects[Origin(objects, destPrefix, k)] in b
    ensures Brought(b, objects, destPrefix, k) == b[objects[Origin(objects, destPrefix, k)]]
  {
    Trace(b, objects, destPrefix, k, objects[k]);
    var j := LastMovedTo(objects, destPrefix, k, objects[k]);
    if j.Some? {
      CarriesOrigin(b, objects, destPrefix, j.value);
    }
  }

  /** From the position `k` on, nothing under this name is moved away. */
  ghost predicate StaysFrom(objects: seq<string>, k: nat, m: nat, name: string)
    requires m <= |objects|
  {
    forall j: nat :: k <= j < m ==> objects[j] != name
  }

  lemma StaysStep(objects: seq<string>, k: nat, m: nat, name: string)
    requires k < m <= |objects|
    ensures StaysFrom(objects, k, m, name) <==> StaysFrom(objects, k, m - 1, name) && objects[m - 1] != name
  {
  }

  /** What the last namesake leaves at the destination stays there unless the destination is moved away itself. */
  lemma {:induction false} LeftAt(b: Objects, objects: seq<string>, destPrefix: string, i: nat, m: nat)
    requires i < |objects| && Present(b, objects, destPrefix, |objects|) && LastNamesake(objects, i) < m <= |objects|
    ensures var l, dest := LastNamesake(objects, i), DestName(destPrefix, objects[i]);
            var s := After(b, objects, destPrefix, m);
            && InTurn(b, objects, destPrefix, l) && (dest in s <==> StaysFrom(objects, l, m, dest))
            && (dest in s ==> s[dest] == Brought(b, objects, destPrefix, l))
  {
    var l, dest := LastNamesake(objects, i), DestName(destPrefix, objects[i]);
    DestIdentifies(destPrefix, objects[m - 1], objects[i]);
    assert InTurn(b, objects, destPrefix, m - 1) && InTurn(b, objects, destPrefix, l);
    AfterStep(b, objects, destPrefix, m, dest);
    StaysStep(objects, l, m, dest);
    if l + 1 < m {
      LeftAt(b, objects, destPrefix, i, m - 1);
    } else {
      DestIdentifies(destPrefix, objects[l], objects[i]);
    }
  }

  /** What a caller can check for one object before the move. */
  ghost predicate Safe(b: Objects, objects: seq<string>, destPrefix: string, i: nat)
    requires i < |objects| && objects[i] in b
  {
    var l := LastNamesake(objects, i);
    && StaysFrom(objects, l, |objects|, DestName(destPrefix, objects[i]))
    && objects[Origin(objects, destPrefix, l)] in b && b[objects[Origin(objects, destPrefix, l)]] == b[objects[i]]
  }

  /** Each listed content is under its destination. */
  ghost predicate Archived(b: Objects, objects: seq<string>, destPrefix: string, s: Objects) {
    forall i: nat :: i < |objects| && objects[i] in b ==> HoldsAt(s, DestName(destPrefix, objects[i]), b[objects[i]])
  }

  /**
   * A successful move archives a content exactly when, from its last namesake on, nothing is moved away from its
   * destination, and that namesake brings the same content.
   */
  lemma ArchivedIff(b: Objects, objects: seq<string>, destPrefix: string, answers: nat -> Answer, n: nat)
    requires MoveRun(b, objects, destPrefix, answers, n).ok
    ensures var s := Final(b, MoveRun(b, objects, destPrefix, answers, n));
            forall i: nat :: i < |objects| && objects[i] in b ==>
              (HoldsAt(s, DestName(destPrefix, objects[i]), b[objects[i]]) <==> Safe(b, objects, destPrefix, i))
    ensures Archived(b, objects, destPrefix, Final(b, MoveRun(b, objects, destPrefix, answers, n))) <==>
            forall i: nat :: i < |objects| && objects[i] in b ==> Safe(b, objects, destPrefix, i)
  {
    SuccessMovesAll(b, objects, destPrefix, answers, n);
    var s := Final(b, MoveRun(b, objects, destPrefix, answers, n));
    forall i: nat | i < |objects| && objects[i] in b
      ensures HoldsAt(s, DestName(destPrefix, objects[i]), b[objects[i]]) <==> Safe(b, objects, destPrefix, i)
    {
      LeftAt(b, objects, destPrefix, i, |objects|);
      assert InTurn(b, objects, destPrefix, LastNamesake(objects, i));
      CarriesOrigin(b, objects, destPrefix, LastNamesake(objects, i));
    }
  }

  lemma {:induction false} NotMovedTo(objects: seq<string>, destPrefix: string, k: nat, name: string)
    requires k <= |objects| && forall j :: 0 <= j < k ==> DestName(destPrefix, objects[j]) != name
    ensures LastMovedTo(objects, destPrefix, k, name).None?
  {
    if 0 < k {
      NotMovedTo(objects, destPrefix, k - 1, name);
    }
  }

  /** The lists that lose nothing on the way are safe: distinct basenames, no destination a source still to be moved. */
  lemma SimpleListsAreSafe(b: Objects, objects: seq<string>, destPrefix: string, i: nat)
    requires DistinctBasenames(objects) && NoClash(objects, destPrefix) && i < |objects| && objects[i] in b
    ensures Safe(b, objects, destPrefix, i)
  {
    assert LastNamesake(objects, i) == i;
    NotMovedTo(objects, destPrefix, i, objects[i]);
  }

  /** Object `j` is moved to this name, and the name is not moved away from then on. */
  ghost predicate LeftBy(objects: seq<string>, destPrefix: string, j: nat, m: nat, name: string)
    requires m <= |objects|
  {
    j < m && DestName(destPrefix, objects[j]) == name && StaysFrom(objects, j, m, name)
  }

  /** Some object is left by the first `m` moves under this name. */
  ghost predicate SomeLeftBy(objects: seq<string>, destPrefix: string, m: nat, name: string)
    requires m <= |objects|
  {
    exists j: nat {:trigger LeftBy(objects, destPrefix, j, m, name)} :: LeftBy(objects, destPrefix, j, m, name)
  }

  lemma {:induction false} SourceAt(b: Objects, objects: seq<string>, destPrefix: string, i: nat, m: nat)
    requires i < m <= |objects| && Present(b, objects, destPrefix, |objects|)
    ensures objects[i] in After(b, objects, destPrefix, m) <==> SomeLeftBy(objects, destPrefix, m, objects[i])
  {
    var name := objects[i];
    assert InTurn(b, objects, destPrefix, m - 1);
    AfterStep(b, objects, destPrefix, m, name);
    LeftStep(objects, destPrefix, m, name);
    if m == i + 1 {
      assert forall j: nat :: j < m ==> !StaysFrom(objects, j, m, name);
    } else {
      SourceAt(b, objects, destPrefix, i, m - 1);
    }
  }

  lemma LeftStep(objects: seq<string>, destPrefix: string, m: nat, name: string)
    requires 0 < m <= |objects|
    ensures SomeLeftBy(objects, destPrefix, m, name) <==>
            objects[m - 1] != name
            && (DestName(destPrefix, objects[m - 1]) == name || SomeLeftBy(objects, destPrefix, m - 1, name))
  {
    forall j: nat | j < m
      ensures LeftBy(objects, destPrefix, j, m, name) <==>
              objects[m - 1] != name
              && if j == m - 1 then DestName(destPrefix, objects[j]) == name
                 else LeftBy(objects, destPrefix, j, m - 1, name)
    {
      StaysStep(objects, j, m, name);
    }
  }

  /** After a successful move a source name is in use exactly when some object was moved there and has stayed. */
  lemma SourceRemainsIff(b: Objects, objects: seq<string>, destPrefix: string, answers: nat -> Answer, n: nat, i: nat)
    requires MoveRun(b, objects, destPrefix, answers, n).ok && i < |objects|
    ensures objects[i] in Final(b, MoveRun(b, objects, destPrefix, answers, n)) <==>
            SomeLeftBy(objects, destPrefix, |objects|, objects[i])
  {
    SuccessMovesAll(b, objects, destPrefix, answers, n);
    SourceAt(b, objects, destPrefix, i, |objects|);
  }

  // -- Every moment of any run ---------------------------------------------------------------------------

  /** The bucket once `m` objects have been moved and, if so, the next has been copied but not deleted. */
  function Moment(b: Objects, objects: seq<string>, destPrefix: string, m: nat, copied: bool): Objects
    requires m <= |objects| && (copied ==> m < |objects|)
  {
    var s := After(b, objects, destPrefix, m);
    if copied && objects[m] in s then s[DestName(destPrefix, objects[m]) := s[objects[m]]] else s
  }

  /** The content is brought to this name by the first `m` moves, or was there, and stays. */
  ghost predicate Carried(b: Objects, objects: seq<string>, destPrefix: string, m: nat, name: string, c: Content)
    requires m <= |objects|
  {
    var j := LastMovedTo(objects, destPrefix, m, name);
    if j.None? then StaysFrom(objects, 0, m, name) && HoldsAt(b, name, c)
    else StaysFrom(objects, j.value, m, name) && HoldsAt(b, objects[Origin(objects, destPrefix, j.value)], c)
  }

  lemma {:induction false} HoldsIffCarried(b: Objects, objects: seq<string>, destPrefix: string, m: nat, name: string,
                                           c: Content)
    requires m <= |objects| && Present(b, objects, destPrefix, m)
    ensures HoldsAt(After(b, objects, destPrefix, m), name, c) <==> Carried(b, objects, destPrefix, m, name, c)
  {
    if 0 < m {
      assert InTurn(b, objects, destPrefix, m - 1);
      HoldsIffCarried(b, objects, destPrefix, m - 1, name, c);
      AfterStep(b, objects, destPrefix, m, name);
      CarriesOrigin(b, objects, destPrefix, m - 1);
      var j := LastMovedTo(objects, destPrefix, m, name);
      StaysStep(objects, if j.Some? then j.value else 0, m, name);
    }
  }

  /** What can be said before the run of one name at a moment of it. */
  ghost predicate CarriedAt(b: Objects, objects: seq<string>, destPrefix: string, m: nat, copied: bool, name: string,
                            c: Content)
    requires m <= |objects| && (copied ==> m < |objects|)
  {
    if copied && name == DestName(destPrefix, objects[m]) then HoldsAt(b, objects[Origin(objects, destPrefix, m)], c)
    else Carried(b, objects, destPrefix, m, name, c)
  }

  /** Each listed content is carried under its own name or its destination. */
  ghost predicate SafeAt(b: Objects, objects: seq<string>, destPrefix: string, m: nat, copied: bool)
    requires m <= |objects| && (copied ==> m < |objects|)
  {
    forall i :: 0 <= i < |objects| && objects[i] in b ==>
      || CarriedAt(b, objects, destPrefix, m, copied, objects[i], b[objects[i]])
      || CarriedAt(b, objects, destPrefix, m, copied, DestName(destPrefix, objects[i]), b[objects[i]])
  }

  /** The moment is reached: the objects moved, and the one copied, are in the bucket in their turn. */
  ghost predicate Reached(b: Objects, objects: seq<string>, destPrefix: string, m: nat, copied: bool) {
    && m <= |objects| && Present(b, objects, destPrefix, m)
    && (copied ==> m < |objects| && InTurn(b, objects, destPrefix, m))
  }

  lemma HoldsAtMoment(b: Objects, objects: seq<string>, destPrefix: string, m: nat, copied: bool, name: string,
                      c: Content)
    requires Reached(b, objects, destPrefix, m, copied)
    ensures HoldsAt(Moment(b, objects, destPrefix, m, copied), name, c) <==>
            CarriedAt(b, objects, destPrefix, m, copied, name, c)
  {
    HoldsIffCarried(b, objects, destPrefix, m, name, c);
    if copied {
      CarriesOrigin(b, objects, destPrefix, m);
    }
  }

  lemma KeptIff(b: Objects, objects: seq<string>, destPrefix: string, m: nat, copied: bool)
    requires Reached(b, objects, destPrefix, m, copied)
    ensures Kept(b, objects, destPrefix, Moment(b, objects, destPrefix, m, copied)) <==>
            SafeAt(b, objects, destPrefix, m, copied)
  {
    var s := Moment(b, objects, destPrefix, m, copied);
    forall i | 0 <= i < |objects| && objects[i] in b
      ensures HoldsAt(s, objects[i], b[objects[i]]) <==>
              CarriedAt(b, objects, destPrefix, m, copied, objects[i], b[objects[i]])
      ensures HoldsAt(s, DestName(destPrefix, objects[i]), b[objects[i]]) <==>
              CarriedAt(b, objects, destPrefix, m, copied, DestName(destPrefix, objects[i]), b[objects[i]])
    {
      HoldsAtMoment(b, objects, destPrefix, m, copied, objects[i], b[objects[i]]);
      HoldsAtMoment(b, objects, destPrefix, m, copied, DestName(destPrefix, objects[i]), b[objects[i]]);
    }
  }

  lemma ReachedTail(b: Objects, objects: seq<string>, destPrefix: string, m: nat, copied: bool)
    requires objects != [] && objects[0] in b
    requires var b2 := b[DestName(destPrefix, objects[0]) := b[objects[0]]] - {objects[0]};
             Reached(b2, objects[1..], destPrefix, m, copied)
    ensures Reached(b, objects, destPrefix, m + 1, copied)
    ensures var b2 := b[DestName(destPrefix, objects[0]) := b[objects[0]]] - {objects[0]};
            Moment(b, objects, destPrefix, m + 1, copied) == Moment(b2, objects[1..], destPrefix, m, copied)
  {
    var b2, tail := b[DestName(destPrefix, objects[0]) := b[objects[0]]] - {objects[0]}, objects[1..];
    forall j: nat | j < |objects|
      ensures InTurn(b, objects, destPrefix, j) <==> j == 0 || InTurn(b2, tail, destPrefix, j - 1)
    {
      if 0 < j {
        AfterFirst(b, objects, destPrefix, j - 1);
        assert tail[j - 1] == objects[j];
      }
    }
    MomentTail(b, objects, destPrefix, m, copied);
  }

  lemma MomentTail(b: Objects, objects: seq<string>, destPrefix: string, m: nat, copied: bool)
    requires m < |objects| && objects[0] in b && (copied ==> m + 1 < |objects|)
    ensures var b2 := b[DestName(destPrefix, objects[0]) := b[objects[0]]] - {objects[0]};
            Moment(b, objects, destPrefix, m + 1, copied) == Moment(b2, objects[1..], destPrefix, m, copied)
  {
    AfterFirst(b, objects, destPrefix, m);
    assert copied ==> objects[1..][m] == objects[m + 1];
  }

  /**
   * For any list and any answers, after every request of a run, whether or not the run goes on, all listed contents are
   * under their source or their destination exactly when the list is safe at that moment.
   */
  lemma EveryMoment(b: Objects, objects: seq<string>, destPrefix: string, answers: nat -> Answer, n: nat, i: nat)
    returns (m: nat, copied: bool)
    requires i < |MoveRun(b, objects, destPrefix, answers, n).states|
    ensures Reached(b, objects, destPrefix, m, copied)
    ensures MoveRun(b, objects, destPrefix, answers, n).states[i] == Moment(b, objects, destPrefix, m, copied)
    ensures Kept(b, objects, destPrefix, MoveRun(b, objects, destPrefix, answers, n).states[i]) <==>
            SafeAt(b, objects, destPrefix, m, copied)
  {
    m, copied := SomeMoment(b, objects, destPrefix, answers, n, i);
    KeptIff(b, objects, destPrefix, m, copied);
  }

  lemma {:induction false} SomeMoment(b: Objects, objects: seq<string>, destPrefix: string, answers: nat -> Answer,
                                      n: nat, i: nat)
    returns (m: nat, copied: bool)
    requires i < |MoveRun(b, objects, destPrefix, answers, n).states|
    ensures Reached(b, objects, destPrefix, m, copied)
    ensures MoveRun(b, objects, destPrefix, answers, n).states[i] == Moment(b, objects, destPrefix, m, copied)
    decreases |objects|
  {
    if i < 2 {
      m, copied := FirstMoments(b, objects, destPrefix, answers, n, i);
    } else {
      var b2 := TailStates(b, objects, destPrefix, answers, n, i);
      var m', copied' := SomeMoment(b2, objects[1..], destPrefix, answers, n + 2, i - 2);
      ReachedTail(b, objects, destPrefix, m', copied');
      m, copied := m' + 1, copied';
    }
  }

  lemma TailStates(b: Objects, objects: seq<string>, destPrefix: string, answers: nat -> Answer, n: nat, i: nat)
    returns (b2: Objects)
    requires 2 <= i < |MoveRun(b, objects, destPrefix, answers, n).states|
    ensures objects != [] && objects[0] in b
    ensures b2 == b[DestName(destPrefix, objects[0]) := b[objects[0]]] - {objects[0]}
    ensures var rest := MoveRun(b2, objects[1..], destPrefix, answers, n + 2).states;
            i - 2 < |rest| && MoveRun(b, objects, destPrefix, answers, n).states[i] == rest[i - 2]
  {
    b2 := b[DestName(destPrefix, objects[0]) := b[objects[0]]] - {objects[0]};
  }

  lemma FirstMoments(b: Objects, objects: seq<string>, destPrefix: string, answers: nat -> Answer, n: nat, i: nat)
    returns (m: nat, copied: bool)
    requires i < 2 && i < |MoveRun(b, objects, destPrefix, answers, n).states|
    ensures Reached(b, objects, destPrefix, m, copied)
    ensures MoveRun(b, objects, destPrefix, answers, n).states[i] == Moment(b, objects, destPrefix, m, copied)
  {
    var o, dest := objects[0], DestName(destPrefix, objects[0]);
    var (b1, done) := CopyIn(b, o, dest, answers(n));
    assert After(b, objects, destPrefix, 0) == b;
    m := 0;
    copied := o in b && !answers(n).LostRequest?;
    if i == 1 {
      var (b2, deleted) := DeleteIn(b1, o, answers(n + 1));
      if o in b1 && !answers(n + 1).LostRequest? {
        m, copied := 1, false;
        assert InTurn(b, objects, destPrefix, 0);
        assert After(b, objects, destPrefix, 1) == b2;
      }
    }
  }

  /** Two sources of one basename: the second overwrites the first, although every request is answered. */
  lemma NamesakesOverwrite(c: Content, d: Content)
    requires c != d
    ensures var b: Objects, list := map["a/x" := c, "b/x" := d], ["a/x", "b/x"];
            var run := MoveRun(b, list, "h/", _ => Done, 0);
            run.ok && Final(b, run) == map["h/x" := d] && !Safe(b, list, "h/", 0)
  {
    var b: Objects, list := map["a/x" := c, "b/x" := d], ["a/x", "b/x"];
    assert Basename("a/x") == "x" && Basename("b/x") == "x" by {
      assert "a/x"[1..] == "/x" && "b/x"[1..] == "/x" && "/x"[1..] == "x";
    }
    assert DestName("h/", "a/x") == "h/x" && DestName("h/", "b/x") == "h/x";
    assert list[1..] == ["b/x"] && list[1..][1..] == [];
    var run := MoveRun(b, list, "h/", _ => Done, 0);
    assert run.ok;
    assert Final(b, run) == map["h/x" := d];
    ArchivedIff(b, list, "h/", _ => Done, 0);
    assert !HoldsAt(Final(b, run), "h/x", c);
  }
}
