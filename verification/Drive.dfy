/** Google Drive enumeration: a work queue over folders, with file filters. */
module Drive {
  import opened Seqs
  import opened Ids
  import opened Items

  /** `modified` is the parsed modification time; a missing or unreadable one is `None`. */
  datatype DriveFile = DriveFile(id: string, name: string, mimeType: string, modified: Option<int>)

  const MIME_FOLDER: string := "application/vnd.google-apps.folder"

  predicate IsFolder(file: DriveFile) {
    file.mimeType == MIME_FOLDER
  }

  /** The complete listing of a folder, or the error that ended it. */
  type Lister = string -> Result<seq<DriveFile>, string>

  datatype FilterAction = Include | Exclude
  datatype CompiledFilter = CompiledFilter(matches: string -> bool, action: FilterAction)
  datatype FileTypeFilter = FileTypeFilter(extension: Option<string>, mime: Option<string>)
  datatype Settings = Settings(
    rootFolders: seq<string>,
    filters: seq<CompiledFilter>,
    fileTypes: seq<FileTypeFilter>,
    modifiedAfter: Option<int>)

  // -- Filters ---------------------------------------------------------------------------

  /** The part after the last '.', or everything when there is none. */
  function Extension(path: string): string {
    if '.' !in path then path else Extension(path[1..])
  }

  function LowerAscii(c: char): char {
    if 'A' <= c <= 'Z' then c - 'A' + 'a' else c
  }

  predicate SameIgnoringCase(a: string, b: string) {
    |a| == |b| && forall i :: 0 <= i < |a| ==> LowerAscii(a[i]) == LowerAscii(b[i])
  }

  predicate MatchesType(file: DriveFile, path: string, f: FileTypeFilter) {
    || (f.extension.Some? && SameIgnoringCase(Extension(path), f.extension.value))
    || (f.mime.Some? && file.mimeType == f.mime.value)
  }

  /** The same character, or the two cases of one ASCII letter. */
  predicate SameLetter(c: char, d: char) {
    || c == d
    || ('A' <= c <= 'Z' && d as int == c as int + 32)
    || ('A' <= d <= 'Z' && c as int == d as int + 32)
  }

  lemma {:induction false} ExtensionAfterDot(stem: string, ext: string)
    requires '.' !in ext
    ensures Extension(stem + "." + ext) == ext
  {
    var path := stem + "." + ext;
    assert path[|stem|] == '.';
    if stem == [] {
      assert path[1..] == ext;
    } else {
      assert path[1..] == stem[1..] + "." + ext;
      ExtensionAfterDot(stem[1..], ext);
    }
  }

  /** A type is matched by the extension in any case, the whole path counting as one without a dot; or by MIME type. */
  lemma MatchesTypeIff(file: DriveFile, path: string, stem: string, ext: string, f: FileTypeFilter)
    requires '.' !in ext && (path == ext || path == stem + "." + ext)
    ensures MatchesType(file, path, f) <==>
            || f.mime == Some(file.mimeType)
            || (f.extension.Some? && |ext| == |f.extension.value|
                && forall i :: 0 <= i < |ext| ==> SameLetter(ext[i], f.extension.value[i]))
  {
    if path != ext {
      ExtensionAfterDot(stem, ext);
    }
    assert Extension(path) == ext;
    if f.extension.Some? && |ext| == |f.extension.value| {
      forall i | 0 <= i < |ext|
        ensures SameLetter(ext[i], f.extension.value[i]) <==>
                LowerAscii(ext[i]) == LowerAscii(f.extension.value[i])
      {
      }
    }
  }

  /** The last rule that matches the path, if any, is an include. */
  ghost predicate LastRuleIncludes(filters: seq<CompiledFilter>, path: string) {
    forall i :: 0 <= i < |filters| && filters[i].matches(path) && NoneLater(filters, i, path) ==>
      filters[i].action.Include?
  }

  ghost predicate NoneLater(filters: seq<CompiledFilter>, i: int, path: string) {
    forall j :: i < j < |filters| && 0 <= j ==> !filters[j].matches(path)
  }

  ghost predicate Included(settings: Settings, file: DriveFile, path: string) {
    && (settings.fileTypes == [] || exists f :: f in settings.fileTypes && MatchesType(file, path, f))
    && LastRuleIncludes(settings.filters, path)
    && !(settings.modifiedAfter.Some? && file.modified.Some? && file.modified.value < settings.modifiedAfter.value)
  }

  lemma LastRulePush(filters: seq<CompiledFilter>, rule: CompiledFilter, path: string)
    ensures LastRuleIncludes(filters + [rule], path) <==>
            if rule.matches(path) then rule.action.Include? else LastRuleIncludes(filters, path)
  {
    var all := filters + [rule];
    assert all[|filters|] == rule;
    assert NoneLater(all, |filters|, path);
    forall i | 0 <= i < |filters|
      ensures NoneLater(all, i, path) <==> NoneLater(filters, i, path) && !rule.matches(path)
    {
      assert forall j :: i < j < |filters| ==> all[j] == filters[j];
    }
  }

  method ShouldInclude(settings: Settings, file: DriveFile, path: string) returns (include_: bool)
    ensures include_ <==> Included(settings, file, path)
  {
    if settings.fileTypes != [] {
      var matchesAny := exists f :: f in settings.fileTypes && MatchesType(file, path, f);
      if !matchesAny {
        return false;
      }
    }
    var included := true;
    for k := 0 to |settings.filters|
      invariant included <==> LastRuleIncludes(settings.filters[..k], path)
    {
      LastRulePush(settings.filters[..k], settings.filters[k], path);
      assert settings.filters[..k + 1] == settings.filters[..k] + [settings.filters[k]];
      if settings.filters[k].matches(path) {
        included := settings.filters[k].action == Include;
      }
    }
    assert settings.filters[..|settings.filters|] == settings.filters;
    if !included {
      return false;
    }
    if settings.modifiedAfter.Some? && file.modified.Some? && file.modified.value < settings.modifiedAfter.value {
      return false;
    }
    return true;
  }

  // -- Paths ------------------------------------------------------------------------------

  /** The path of an entry named `name` in the folder at `prefix`. */
  function PathIn(prefix: string, name: string): string {
    if prefix == "" then name else prefix + "/" + name
  }

  function PathOf(prefix: string, names: seq<string>): string
    decreases |names|
  {
    if names == [] then prefix else PathOf(PathIn(prefix, names[0]), names[1..])
  }

  /** The names without the empty ones they start with. */
  function Trimmed(names: seq<string>): seq<string> {
    if names != [] && names[0] == "" then Trimmed(names[1..]) else names
  }

  lemma Reassociate(a: string, b: string, c: string)
    ensures (a + "/" + b) + "/" + c == a + "/" + (b + ['/'] + c)
  {
  }

  lemma {:induction false} PathUnderPrefix(prefix: string, names: seq<string>)
    requires prefix != ""
    ensures PathOf(prefix, names) == if names == [] then prefix else prefix + "/" + JoinWith(names, '/')
    decreases |names|
  {
    if names != [] {
      PathUnderPrefix(PathIn(prefix, names[0]), names[1..]);
      if |names| > 1 {
        Reassociate(prefix, names[0], JoinWith(names[1..], '/'));
      }
    }
  }

  /** An entry's path is the names on the way to it joined by '/', without the empty names it starts with. */
  lemma {:induction false} PathIsJoined(names: seq<string>)
    ensures PathOf("", names) == JoinWith(Trimmed(names), '/')
  {
    if names != [] {
      if names[0] == "" {
        PathIsJoined(names[1..]);
      } else {
        PathUnderPrefix(names[0], names[1..]);
      }
    }
  }

  lemma {:induction false} TrimmedIsShorter(names: seq<string>)
    ensures |JoinWith(Trimmed(names), '/')| <= |JoinWith(names, '/')|
    ensures |names| > 1 && names[0] == "" ==> |JoinWith(Trimmed(names), '/')| < |JoinWith(names, '/')|
  {
    if names != [] && names[0] == "" {
      TrimmedIsShorter(names[1..]);
    }
  }

  /** A path spells out every name exactly when the outermost one is not empty or is the only one. */
  lemma PathSpellsAllNamesIff(names: seq<string>)
    ensures PathOf("", names) == JoinWith(names, '/') <==> |names| <= 1 || names[0] != ""
  {
    PathIsJoined(names);
    TrimmedIsShorter(names);
    if |names| == 1 {
      assert names[1..] == [];
    }
  }

  // -- What a folder holds -------------------------------------------------------------------

  /** A folder met on the way, or a file that passes the filters. */
  datatype Entry = Folder(id: string, path: string) | File(item: SourceItem)

  ghost function EntriesFor(settings: Settings, file: DriveFile, path: string): multiset<Entry> {
    if IsFolder(file) then multiset{Folder(file.id, path)}
    else if Included(settings, file, path) then multiset{File(ItemFor(file, path))}
    else multiset{}
  }

  function ItemFor(file: DriveFile, path: string): SourceItem {
    SourceItem(file.id, file.name, file.mimeType, path)
  }

  function Listing(list: Lister, folder: string): seq<DriveFile> {
    if list(folder).Ok? then list(folder).value else []
  }

  /** A folder waiting in the queue. */
  datatype Queued = Queued(id: string, prefix: string)

  /** The files of a listing that pass the filters; subfolders do not count. */
  ghost function FilesIn(settings: Settings, files: seq<DriveFile>, prefix: string): multiset<Entry> {
    if files == [] then multiset{}
    else
      var last := files[|files| - 1];
      FilesIn(settings, files[..|files| - 1], prefix) + FileEntries(settings, last, prefix)
  }

  ghost function FileEntries(settings: Settings, file: DriveFile, prefix: string): multiset<Entry> {
    if IsFolder(file) then multiset{} else EntriesFor(settings, file, PathIn(prefix, file.name))
  }

  // -- The traversal ----------------------------------------------------------------------------

  /** The subfolders listed in a folder join the queue. */
  function Enqueue(queue: seq<Queued>, files: seq<DriveFile>, prefix: string): seq<Queued> {
    if files == [] then queue
    else
      var last := files[|files| - 1];
      var rest := Enqueue(queue, files[..|files| - 1], prefix);
      if IsFolder(last) then rest + [Queued(last.id, PathIn(prefix, last.name))] else rest
  }

  /** One turn of the loop: the front folder is listed. */
  function Turn(list: Lister, queue: seq<Queued>): Result<seq<Queued>, string> {
    if queue == [] then Ok([])
    else
      match list(queue[0].id)
      case Err(e) => Err(e)
      case Ok(files) => Ok(Enqueue(queue[1..], files, queue[0].prefix))
  }

  /** The queue after `n` turns, or the error that ended them. */
  function AfterTurns(list: Lister, start: seq<Queued>, n: nat): Result<seq<Queued>, string> {
    if n == 0 then Ok(start)
    else
      match AfterTurns(list, start, n - 1)
      case Err(e) => Err(e)
      case Ok(queue) => Turn(list, queue)
  }

  function RootQueue(roots: seq<string>): seq<Queued> {
    if roots == [] then [] else RootQueue(roots[..|roots| - 1]) + [Queued(roots[|roots| - 1], "")]
  }

  /** The root folders, as if listed in a folder of their own under an empty name. */
  function RootFiles(roots: seq<string>): seq<DriveFile> {
    if roots == [] then [] else RootFiles(roots[..|roots| - 1]) + [RootFile(roots[|roots| - 1])]
  }

  function RootFile(id: string): DriveFile {
    DriveFile(id, "", MIME_FOLDER, None)
  }

  ghost function Listed(items: seq<SourceItem>): multiset<Entry> {
    Sum(items, (item: SourceItem) => multiset{File(item)})
  }

  lemma ListedPush(items: seq<SourceItem>, item: SourceItem)
    ensures Listed(items + [item]) == Listed(items) + multiset{File(item)}
  {
    SumPush(items, item, (item: SourceItem) => multiset{File(item)});
  }

  /** The listing of a folder: subfolders join the queue, included files the items. */
  method VisitFiles(settings: Settings, files: seq<DriveFile>, prefix: string, queue0: seq<Queued>,
                    items0: seq<SourceItem>)
    returns (queue: seq<Queued>, items: seq<SourceItem>)
    ensures queue == Enqueue(queue0, files, prefix)
    ensures Listed(items) == Listed(items0) + FilesIn(settings, files, prefix)
  {
    queue, items := queue0, items0;
    for k := 0 to |files|
      invariant queue == Enqueue(queue0, files[..k], prefix)
      invariant Listed(items) == Listed(items0) + FilesIn(settings, files[..k], prefix)
    {
      var path := PathIn(prefix, files[k].name);
      assert files[..k + 1][..k] == files[..k];
      if IsFolder(files[k]) {
        queue := queue + [Queued(files[k].id, path)];
      } else {
        var include_ := ShouldInclude(settings, files[k], path);
        if include_ {
          ListedPush(items, ItemFor(files[k], path));
          items := items + [ItemFor(files[k], path)];
        }
      }
    }
    assert files[..|files|] == files;
  }
}
