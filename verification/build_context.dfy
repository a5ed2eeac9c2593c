/** The build-context export: a walk of the whole tree with an explicit stack of directories still to read. */
module BuildContext {
  import opened Prelude
  import opened Text
  import opened GitTree

  const EXCLUDED := {".git", ".hg", "__pycache__"}
  const OTHER_SUBMODULE_MODE := 0x14000

  datatype ContextFile = ContextFile(path: string, mode: nat, data: Bytes)

  datatype Error = MissingObject

  /** A tree's own bytes, as git stores it. */
  type TreeBytes = seq<TreeEntry> -> Bytes

  // ----- what the export should contain -----

  predicate IsSubmodule(e: TreeEntry) {
    e.mode == SUBMODULE_MODE || e.mode == OTHER_SUBMODULE_MODE
  }

  predicate IsDirectory(e: TreeEntry) {
    e.mode == DIR_MODE
  }

  /** Every object the export has to read is in the store and of the kind its mode announces. */
  predicate Readable(entries: seq<TreeEntry>)
    decreases entries, 0
  {
    entries == [] || (Readable(entries[..|entries| - 1]) && ReadableEntry(entries[|entries| - 1]))
  }

  predicate ReadableEntry(e: TreeEntry)
    decreases e, 1
  {
    if IsDirectory(e) then e.name in EXCLUDED || (e.obj.Tree? && Readable(e.obj.entries))
    else IsSubmodule(e) || !e.obj.Missing?
  }

  /** The walk comes to this entry along these directories, none of which is excluded. */
  ghost predicate Reached(entries: seq<TreeEntry>, dirs: seq<GitName>, e: TreeEntry)
    decreases |dirs|
  {
    if dirs == [] then e in entries
    else exists d :: d in entries && IsDirectory(d) && d.name == dirs[0] && d.name !in EXCLUDED && d.obj.Tree?
                     && Reached(d.obj.entries, dirs[1..], e)
  }

  /** A directory that is no tree, or a file whose object is gone; nobody looks behind excluded names and submodules. */
  predicate Broken(e: TreeEntry) {
    if e.mode == 0x4000 then e.name != ".git" && e.name != ".hg" && e.name != "__pycache__" && !e.obj.Tree?
    else e.mode != 0xE000 && e.mode != 0x14000 && e.obj.Missing?
  }

  /** The export can be read exactly when the walk comes to no broken entry. */
  lemma ReadableIff(root: seq<TreeEntry>)
    ensures Readable(root) <==> forall dirs, e :: ComesTo(root, dirs, e) ==> !Broken(e)
  {
    if Readable(root) {
      forall dirs, e | ComesTo(root, dirs, e) ensures !Broken(e) {
        ReachedIsRead(root, dirs, e);
      }
    } else {
      var dirs, e := BrokenReached(root);
      assert ComesTo(root, dirs, e);
    }
  }

  ghost predicate ComesTo(root: seq<TreeEntry>, dirs: seq<GitName>, e: TreeEntry) {
    Reached(root, dirs, e)
  }

  lemma {:induction false} MemberReadable(entries: seq<TreeEntry>, e: TreeEntry)
    requires e in entries && Readable(entries)
    ensures ReadableEntry(e)
  {
    if e != entries[|entries| - 1] {
      MemberReadable(entries[..|entries| - 1], e);
    }
  }

  lemma {:induction false} ReachedIsRead(entries: seq<TreeEntry>, dirs: seq<GitName>, e: TreeEntry)
    requires Readable(entries) && Reached(entries, dirs, e)
    ensures !Broken(e)
    decreases |dirs|
  {
    if dirs == [] {
      MemberReadable(entries, e);
    } else {
      var d :| d in entries && IsDirectory(d) && d.name == dirs[0] && d.name !in EXCLUDED && d.obj.Tree?
               && Reached(d.obj.entries, dirs[1..], e);
      MemberReadable(entries, d);
      ReachedIsRead(d.obj.entries, dirs[1..], e);
    }
  }

  lemma {:induction false} ReachedInMore(entries: seq<TreeEntry>, more: seq<TreeEntry>, dirs: seq<GitName>,
                                         e: TreeEntry)
    requires Reached(entries, dirs, e) && forall x :: x in entries ==> x in more
    ensures Reached(more, dirs, e)
  {
  }

  lemma {:induction false} BrokenReached(entries: seq<TreeEntry>) returns (dirs: seq<GitName>, e: TreeEntry)
    requires !Readable(entries)
    ensures Reached(entries, dirs, e) && Broken(e)
    decreases entries
  {
    var init, last := entries[..|entries| - 1], entries[|entries| - 1];
    if !Readable(init) {
      dirs, e := BrokenReached(init);
      ReachedInMore(init, entries, dirs, e);
    } else if IsDirectory(last) && last.obj.Tree? {
      var inner;
      inner, e := BrokenReached(last.obj.entries);
      dirs := [last.name] + inner;
      assert dirs[1..] == inner && dirs[0] == last.name && last in entries;
    } else {
      dirs, e := [], last;
    }
  }

  /** Whatever kind of object a file entry leads to, its bytes are taken as they are. */
  function RawString(o: GitObject, raw: TreeBytes): Bytes
    requires !o.Missing?
  {
    match o
    case Blob(data, _) => data
    case Tree(entries) => raw(entries)
    case Other(bytes) => bytes
  }

  /** The recursive listing: excluded directories and submodules pruned, everything else under its full path. */
  function Files(entries: seq<TreeEntry>, segments: seq<GitName>, raw: TreeBytes): seq<ContextFile>
    decreases entries, 0
  {
    if entries == [] then []
    else Files(entries[..|entries| - 1], segments, raw) + EntryFiles(entries[|entries| - 1], segments, raw)
  }

  function EntryFiles(e: TreeEntry, segments: seq<GitName>, raw: TreeBytes): seq<ContextFile>
    decreases e, 1
  {
    if IsDirectory(e) then
      if e.name in EXCLUDED || !e.obj.Tree? then [] else Files(e.obj.entries, segments + [e.name], raw)
    else if IsSubmodule(e) || e.obj.Missing? then []
    else [ContextFile(PathOf(segments + [e.name]), e.mode, RawString(e.obj, raw))]
  }

  function Size(entries: seq<TreeEntry>): nat
    decreases entries, 0
  {
    if entries == [] then 1 else Size(entries[..|entries| - 1]) + EntrySize(entries[|entries| - 1])
  }

  function EntrySize(e: TreeEntry): nat
    decreases e, 1
  {
    if e.obj.Tree? then Size(e.obj.entries) else 0
  }

  // ----- the path prefix of a directory -----

  function PrefixOf(segments: seq<GitName>): string {
    if segments == [] then "" else PathOf(segments) + "/"
  }

  /** The export's guard against excluded directories higher up the path. */
  predicate Guarded(prefix: string) {
    prefix != "" && exists part :: part in Split(prefix, '/') && part in EXCLUDED
  }

  ghost predicate NoneExcluded(segments: seq<GitName>) {
    forall s :: s in segments ==> s !in EXCLUDED
  }

  /** Below directories that were not excluded themselves the guard never fires. */
  lemma GuardNeverFires(segments: seq<GitName>)
    requires NoneExcluded(segments)
    ensures !Guarded(PrefixOf(segments))
  {
    if segments != [] {
      SplitJoin(segments + [""], '/');
      JoinAppend(segments, "", '/');
      assert PrefixOf(segments) == Join(segments + [""], '/');
    }
  }

  lemma PrefixedName(segments: seq<GitName>, name: GitName)
    ensures PrefixOf(segments) + name == PathOf(segments + [name])
    ensures PrefixOf(segments) + name + "/" == PrefixOf(segments + [name])
  {
    RowPath(name, segments);
  }

  // ----- the stack -----

  datatype Frame = Frame(entries: seq<TreeEntry>, prefix: string, ghost segments: seq<GitName>)

  ghost function Pending(stack: seq<Frame>, raw: TreeBytes): multiset<ContextFile> {
    if stack == [] then multiset{}
    else
      var top := stack[|stack| - 1];
      Pending(stack[..|stack| - 1], raw) + multiset(Files(top.entries, top.segments, raw))
  }

  ghost function Work(stack: seq<Frame>): nat {
    if stack == [] then 0 else Work(stack[..|stack| - 1]) + Size(stack[|stack| - 1].entries)
  }

  ghost predicate AllReadable(stack: seq<Frame>) {
    forall f :: f in stack ==> Readable(f.entries)
  }

  ghost predicate GoodStack(stack: seq<Frame>) {
    forall f :: f in stack ==> f.prefix == PrefixOf(f.segments) && NoneExcluded(f.segments)
  }

  lemma PushFrame(stack: seq<Frame>, f: Frame, raw: TreeBytes)
    ensures Pending(stack + [f], raw) == Pending(stack, raw) + multiset(Files(f.entries, f.segments, raw))
    ensures Work(stack + [f]) == Work(stack) + Size(f.entries)
    ensures AllReadable(stack + [f]) <==> AllReadable(stack) && Readable(f.entries)
  {
    assert (stack + [f])[..|stack|] == stack;
    assert f in stack + [f];
  }

  /** The entry's own object can be read; nothing is said about objects below it. */
  predicate ReadableHere(e: TreeEntry) {
    if IsDirectory(e) then e.name in EXCLUDED || e.obj.Tree? else IsSubmodule(e) || !e.obj.Missing?
  }

  /** One entry of a directory: a file goes to the output, a directory onto the stack. */
  method ReadEntry(entry: TreeEntry, frame: Frame, stack0: seq<Frame>, out0: seq<ContextFile>, raw: TreeBytes)
    returns (stack: seq<Frame>, out: seq<ContextFile>, failed: bool)
    requires GoodStack(stack0) && GoodStack([frame])
    ensures failed <==> !ReadableHere(entry)
    ensures !failed ==>
              && GoodStack(stack)
              && multiset(out) + Pending(stack, raw)
                 == multiset(out0) + Pending(stack0, raw) + multiset(EntryFiles(entry, frame.segments, raw))
              && Work(stack) <= Work(stack0) + EntrySize(entry)
              && (AllReadable(stack) <==> AllReadable(stack0) && ReadableEntry(entry))
  {
    stack, out, failed := stack0, out0, false;
    assert frame in [frame];
    GuardNeverFires(frame.segments);
    PrefixedName(frame.segments, entry.name);
    if Guarded(frame.prefix) {
      return;
    }
    var relpath := frame.prefix + entry.name;
    if IsDirectory(entry) {
      if entry.name in EXCLUDED {
        return;
      }
      if !entry.obj.Tree? {
        failed := true;
        return;
      }
      var child := Frame(entry.obj.entries, relpath + "/", frame.segments + [entry.name]);
      PushFrame(stack, child, raw);
      stack := stack + [child];
      return;
    }
    if IsSubmodule(entry) {
      return;
    }
    if entry.obj.Missing? {
      failed := true;
      return;
    }
    out := out + [ContextFile(relpath, entry.mode, RawString(entry.obj, raw))];
  }

  lemma EntryOneMore(entries: seq<TreeEntry>, i: nat, segments: seq<GitName>, raw: TreeBytes)
    requires i < |entries|
    ensures multiset(Files(entries[..i + 1], segments, raw))
            == multiset(Files(entries[..i], segments, raw)) + multiset(EntryFiles(entries[i], segments, raw))
    ensures Size(entries[..i + 1]) >= Size(entries[..i]) + EntrySize(entries[i])
    ensures Readable(entries[..i + 1]) <==> Readable(entries[..i]) && ReadableEntry(entries[i])
  {
    assert entries[..i + 1][..i] == entries[..i];
  }

  /** One directory, entry by entry. */
  method ReadDirectory(frame: Frame, stack0: seq<Frame>, out0: seq<ContextFile>, raw: TreeBytes)
    returns (stack: seq<Frame>, out: seq<ContextFile>, failed: bool)
    requires GoodStack(stack0) && GoodStack([frame])
    ensures !failed ==>
              && GoodStack(stack)
              && multiset(out) + Pending(stack, raw)
                 == multiset(out0) + Pending(stack0, raw) + multiset(Files(frame.entries, frame.segments, raw))
              && Work(stack) < Work(stack0) + Size(frame.entries)
              && (AllReadable(stack) <==> AllReadable(stack0) && Readable(frame.entries))
    ensures failed ==> !Readable(frame.entries)
  {
    stack, out, failed := stack0, out0, false;
    for i := 0 to |frame.entries|
      invariant GoodStack(stack)
      invariant multiset(out) + Pending(stack, raw)
                == multiset(out0) + Pending(stack0, raw) + multiset(Files(frame.entries[..i], frame.segments, raw))
      invariant Work(stack) < Work(stack0) + Size(frame.entries[..i])
      invariant AllReadable(stack) <==> AllReadable(stack0) && Readable(frame.entries[..i])
    {
      EntryOneMore(frame.entries, i, frame.segments, raw);
      stack, out, failed := ReadEntry(frame.entries[i], frame, stack, out, raw);
      if failed {
        UnreadableEntry(frame.entries, i);
        return;
      }
    }
    assert frame.entries[..|frame.entries|] == frame.entries;
  }

  lemma {:induction false} UnreadableEntry(entries: seq<TreeEntry>, i: nat)
    requires i < |entries| && !ReadableEntry(entries[i])
    ensures !Readable(entries)
  {
    if i < |entries| - 1 {
      UnreadableEntry(entries[..|entries| - 1], i);
    }
  }

  /**
   The export: it fails exactly when an object it needs cannot be read, and otherwise yields the files of the recursive
   listing, each exactly once, in whatever order the stack produced them.
   */
  method IterTreeBlobs(root: seq<TreeEntry>, raw: TreeBytes) returns (r: Result<seq<ContextFile>, Error>)
    ensures r.Ok? <==> Readable(root)
    ensures r.Ok? ==> multiset(r.value) == multiset(Files(root, [], raw))
  {
    var stack := [Frame(root, "", [])];
    var out: seq<ContextFile> := [];
    ghost var all, readable := multiset(Files(root, [], raw)), Readable(root);
    PushFrame([], stack[0], raw);
    assert [] + [stack[0]] == stack;
    while stack != []
      invariant Balanced(stack, out, all, readable, raw)
      decreases Work(stack)
    {
      ghost var before, soFar := stack, out;
      var rest, top := stack[..|stack| - 1], stack[|stack| - 1];
      Popped(stack, out, all, readable, raw);
      var failed;
      stack, out, failed := ReadDirectory(top, rest, out, raw);
      if failed {
        return Err(MissingObject);
      }
      Turn(before, soFar, stack, out, all, readable, raw);
    }
    return Ok(out);
  }

  /** What has come out and what the stack still holds make up the whole listing. */
  ghost predicate Balanced(stack: seq<Frame>, out: seq<ContextFile>, all: multiset<ContextFile>, readable: bool,
                           raw: TreeBytes) {
    GoodStack(stack) && multiset(out) + Pending(stack, raw) == all && (AllReadable(stack) <==> readable)
  }

  lemma Popped(stack: seq<Frame>, out: seq<ContextFile>, all: multiset<ContextFile>, readable: bool, raw: TreeBytes)
    requires stack != [] && Balanced(stack, out, all, readable, raw)
    ensures GoodStack(stack[..|stack| - 1]) && GoodStack([stack[|stack| - 1]])
    ensures !Readable(stack[|stack| - 1].entries) ==> !readable
  {
    var rest, top := stack[..|stack| - 1], stack[|stack| - 1];
    assert forall f :: f in rest ==> f in stack;
    assert top in stack;
  }

  /** Exchanging the top directory for what reading it leaves keeps the balance, and there is less to read. */
  lemma Turn(stack: seq<Frame>, out: seq<ContextFile>, stack': seq<Frame>, out': seq<ContextFile>,
             all: multiset<ContextFile>, readable: bool, raw: TreeBytes)
    requires stack != [] && Balanced(stack, out, all, readable, raw) && GoodStack(stack')
    requires var rest, top := stack[..|stack| - 1], stack[|stack| - 1];
             && multiset(out') + Pending(stack', raw)
                == multiset(out) + Pending(rest, raw) + multiset(Files(top.entries, top.segments, raw))
             && Work(stack') < Work(rest) + Size(top.entries)
             && (AllReadable(stack') <==> AllReadable(rest) && Readable(top.entries))
    ensures Balanced(stack', out', all, readable, raw) && Work(stack') < Work(stack)
  {
    PopFrame(stack, raw);
  }

  lemma PopFrame(stack: seq<Frame>, raw: TreeBytes)
    requires stack != []
    ensures var rest, top := stack[..|stack| - 1], stack[|stack| - 1];
            && Pending(stack, raw) == Pending(rest, raw) + multiset(Files(top.entries, top.segments, raw))
            && Work(stack) == Work(rest) + Size(top.entries)
            && (AllReadable(stack) <==> AllReadable(rest) && Readable(top.entries))
  {
    var rest, top := stack[..|stack| - 1], stack[|stack| - 1];
    assert forall f :: f in stack <==> f in rest || f == top by {
      assert stack == rest + [top];
    }
  }

  // ----- no path comes out twice -----

  ghost predicate DistinctPathsOf(files: seq<ContextFile>) {
    forall i, j :: 0 <= i < j < |files| ==> files[i].path != files[j].path
  }

  lemma {:induction false} SourceEntry(entries: seq<TreeEntry>, segments: seq<GitName>, f: ContextFile, raw: TreeBytes)
    returns (e: TreeEntry)
    requires f in Files(entries, segments, raw)
    ensures e in entries && f in EntryFiles(e, segments, raw)
  {
    var last := entries[|entries| - 1];
    if f in EntryFiles(last, segments, raw) {
      e := last;
    } else {
      e := SourceEntry(entries[..|entries| - 1], segments, f, raw);
    }
  }

  lemma {:induction false} PathBelowEntry(e: TreeEntry, segments: seq<GitName>, f: ContextFile, raw: TreeBytes)
    requires f in EntryFiles(e, segments, raw)
    ensures var parts := Split(f.path, '/');
            |segments| < |parts| && parts[..|segments| + 1] == segments + [e.name]
    decreases e
  {
    if IsDirectory(e) {
      var inner := SourceEntry(e.obj.entries, segments + [e.name], f, raw);
      PathBelowEntry(inner, segments + [e.name], f, raw);
      var parts := Split(f.path, '/');
      assert parts[..|segments| + 1] == parts[..|segments| + 2][..|segments| + 1];
    } else {
      SplitPath(segments + [e.name]);
    }
  }

  lemma {:induction false} FilesDistinct(entries: seq<TreeEntry>, segments: seq<GitName>, raw: TreeBytes)
    requires Distinct(entries) && WellFormedEntries(entries)
    ensures DistinctPathsOf(Files(entries, segments, raw))
    decreases entries
  {
    if entries != [] {
      var init, last := entries[..|entries| - 1], entries[|entries| - 1];
      FilesDistinct(init, segments, raw);
      var before, own := Files(init, segments, raw), EntryFiles(last, segments, raw);
      if IsDirectory(last) && last.name !in EXCLUDED {
        FilesDistinct(last.obj.entries, segments + [last.name], raw);
        assert own == Files(last.obj.entries, segments + [last.name], raw);
      } else {
        assert |own| <= 1;
      }
      forall a, b | a in before && b in own ensures a.path != b.path {
        var e := SourceEntry(init, segments, a, raw);
        PathBelowEntry(e, segments, a, raw);
        PathBelowEntry(last, segments, b, raw);
        assert e.name == (segments + [e.name])[|segments|] && last.name == (segments + [last.name])[|segments|];
      }
      forall i, j | 0 <= i < |before| && 0 <= j < |own| ensures before[i].path != own[j].path {
        assert before[i] in before && own[j] in own;
      }
      assert Files(entries, segments, raw) == before + own;
    }
  }

  /** Nothing of an excluded directory is exported. */
  lemma {:induction false} NothingExcluded(entries: seq<TreeEntry>, segments: seq<GitName>, f: ContextFile,
                                           raw: TreeBytes)
    requires NoneExcluded(segments) && f in Files(entries, segments, raw)
    ensures var parts := Split(f.path, '/');
            forall i :: 0 <= i < |parts| - 1 ==> parts[i] !in EXCLUDED
    decreases entries
  {
    var e := SourceEntry(entries, segments, f, raw);
    if IsDirectory(e) {
      NothingExcluded(e.obj.entries, segments + [e.name], f, raw);
    } else {
      SplitPath(segments + [e.name]);
    }
  }

  // ----- the export and the listing of files -----

  /** An entry that is no directory, and the directories it lies in. */
  datatype Leaf = Leaf(dirs: seq<GitName>, entry: TreeEntry)

  function Leaves(entries: seq<TreeEntry>, dirs: seq<GitName>): seq<Leaf>
    decreases entries, 0
  {
    if entries == [] then []
    else Leaves(entries[..|entries| - 1], dirs) + LeavesOf(entries[|entries| - 1], dirs)
  }

  function LeavesOf(e: TreeEntry, dirs: seq<GitName>): seq<Leaf>
    decreases e, 1
  {
    if !IsDirectory(e) then [Leaf(dirs, e)]
    else if e.obj.Tree? then Leaves(e.obj.entries, dirs + [e.name])
    else []
  }

  /** The listing takes the regular files: blobs that are neither link nor submodule. */
  function Listed(leaf: Leaf): Option<FileEntry> {
    if IsRegularFile(leaf.entry) then Some(FileRow(leaf.entry, PathOf(leaf.dirs + [leaf.entry.name]))) else None
  }

  /** The export takes whatever can be read and is no submodule, links included, unless a directory is excluded. */
  function Exported(leaf: Leaf, raw: TreeBytes): Option<ContextFile> {
    if (exists d :: d in leaf.dirs && d in EXCLUDED) || IsSubmodule(leaf.entry) || leaf.entry.obj.Missing? then None
    else Some(ContextFile(PathOf(leaf.dirs + [leaf.entry.name]), leaf.entry.mode, RawString(leaf.entry.obj, raw)))
  }

  function Exporter(raw: TreeBytes): Leaf -> Option<ContextFile> {
    leaf => Exported(leaf, raw)
  }

  lemma {:induction false} LeavesBelow(entries: seq<TreeEntry>, dirs: seq<GitName>, leaf: Leaf)
    requires leaf in Leaves(entries, dirs)
    ensures dirs <= leaf.dirs
    decreases entries
  {
    var init, last := entries[..|entries| - 1], entries[|entries| - 1];
    if leaf in Leaves(init, dirs) {
      LeavesBelow(init, dirs, leaf);
    } else if IsDirectory(last) {
      LeavesBelow(last.obj.entries, dirs + [last.name], leaf);
    }
  }

  lemma {:induction false} ListingIsOfLeaves(entries: seq<TreeEntry>, dirs: seq<GitName>)
    ensures FlattenEntries(entries, dirs) == Collected(Leaves(entries, dirs), Listed)
    decreases entries
  {
    if entries != [] {
      var init, last := entries[..|entries| - 1], entries[|entries| - 1];
      ListingIsOfLeaves(init, dirs);
      CollectedAppend(Leaves(init, dirs), LeavesOf(last, dirs), Listed);
      if IsDirectory(last) && last.obj.Tree? {
        ListingIsOfLeaves(last.obj.entries, dirs + [last.name]);
        assert FlattenEntry(last, dirs) == Flatten(last.obj, dirs + [last.name]);
      } else if !IsDirectory(last) {
        CollectedOne(Leaf(dirs, last), Listed);
      } else {
        assert FlattenEntry(last, dirs) == [] && LeavesOf(last, dirs) == [];
      }
    }
  }

  lemma CollectedOne<A, B>(item: A, f: A -> Option<B>)
    ensures Collected([item], f) == if f(item).Some? then [f(item).value] else []
  {
    assert [item][..0] == [];
  }

  lemma ExcludedLeaves(entries: seq<TreeEntry>, dirs: seq<GitName>, raw: TreeBytes)
    requires exists d :: d in dirs && d in EXCLUDED
    ensures Collected(Leaves(entries, dirs), Exporter(raw)) == []
  {
    forall leaf | leaf in Leaves(entries, dirs) ensures Exporter(raw)(leaf).None? {
      LeavesBelow(entries, dirs, leaf);
      var d :| d in dirs && d in EXCLUDED;
      assert d in leaf.dirs;
    }
    CollectedNone(Leaves(entries, dirs), Exporter(raw));
  }

  lemma {:induction false} ExportIsOfLeaves(entries: seq<TreeEntry>, dirs: seq<GitName>, raw: TreeBytes)
    requires NoneExcluded(dirs)
    ensures Files(entries, dirs, raw) == Collected(Leaves(entries, dirs), Exporter(raw))
    decreases entries
  {
    if entries != [] {
      var init, last := entries[..|entries| - 1], entries[|entries| - 1];
      ExportIsOfLeaves(init, dirs, raw);
      CollectedAppend(Leaves(init, dirs), LeavesOf(last, dirs), Exporter(raw));
      ExportOfEntry(last, dirs, raw);
    }
  }

  lemma {:induction false} ExportOfEntry(e: TreeEntry, dirs: seq<GitName>, raw: TreeBytes)
    requires NoneExcluded(dirs)
    ensures EntryFiles(e, dirs, raw) == Collected(LeavesOf(e, dirs), Exporter(raw))
    decreases e
  {
    if !IsDirectory(e) {
      CollectedOne(Leaf(dirs, e), Exporter(raw));
    } else if e.obj.Tree? {
      if e.name in EXCLUDED {
        assert e.name in dirs + [e.name];
        ExcludedLeaves(e.obj.entries, dirs + [e.name], raw);
      } else {
        ExportIsOfLeaves(e.obj.entries, dirs + [e.name], raw);
      }
    }
  }

  /** For every tree: listing and export go through the same leaves in the same order, and differ in which they take. */
  lemma SameLeaves(root: seq<TreeEntry>, raw: TreeBytes)
    ensures FlattenEntries(root, []) == Collected(Leaves(root, []), Listed)
    ensures Files(root, [], raw) == Collected(Leaves(root, []), Exporter(raw))
  {
    ListingIsOfLeaves(root, []);
    ExportIsOfLeaves(root, [], raw);
  }

  /** File entries lead to blobs, directories to trees, and nobody uses the second submodule mode. */
  predicate Ordinary(entries: seq<TreeEntry>)
    decreases entries, 0
  {
    entries == [] || (Ordinary(entries[..|entries| - 1]) && OrdinaryEntry(entries[|entries| - 1]))
  }

  predicate OrdinaryEntry(e: TreeEntry)
    decreases e, 1
  {
    && e.mode != OTHER_SUBMODULE_MODE
    && if IsDirectory(e) then e.obj.Tree? && Ordinary(e.obj.entries) else IsSubmodule(e) || e.obj.Blob?
  }

  lemma {:induction false} MemberOf(entries: seq<TreeEntry>, e: TreeEntry, segments: seq<GitName>, raw: TreeBytes)
    requires e in entries
    ensures forall f :: f in EntryFiles(e, segments, raw) ==> f in Files(entries, segments, raw)
    ensures forall row :: row in FlattenEntry(e, segments) ==> row in FlattenEntries(entries, segments)
    ensures Ordinary(entries) ==> OrdinaryEntry(e)
  {
    if e != entries[|entries| - 1] {
      MemberOf(entries[..|entries| - 1], e, segments, raw);
    }
  }

  lemma {:induction false} ExportedIsListed(entries: seq<TreeEntry>, segments: seq<GitName>, f: ContextFile,
                                            raw: TreeBytes) returns (row: FileEntry)
    requires Ordinary(entries) && f in Files(entries, segments, raw) && f.mode != SYMLINK_MODE
    ensures row in FlattenEntries(entries, segments) && row.path == f.path && (row.lfs || row.size == Some(|f.data|))
    decreases entries
  {
    var e := SourceEntry(entries, segments, f, raw);
    MemberOf(entries, e, segments, raw);
    if IsDirectory(e) {
      row := ExportedIsListed(e.obj.entries, segments + [e.name], f, raw);
      assert FlattenEntry(e, segments) == Flatten(e.obj, segments + [e.name]);
    } else {
      row := FileRow(e, f.path);
      assert FlattenEntry(e, segments) == [row];
    }
  }

  ghost predicate NoneExcludedBetween(parts: seq<string>, from: nat) {
    forall i :: from <= i < |parts| - 1 ==> parts[i] !in EXCLUDED
  }

  lemma {:induction false} ListedIsExported(entries: seq<TreeEntry>, segments: seq<GitName>, row: FileEntry,
                                            raw: TreeBytes) returns (f: ContextFile)
    requires Ordinary(entries) && row in FlattenEntries(entries, segments)
    requires NoneExcludedBetween(Split(row.path, '/'), |segments|)
    ensures f in Files(entries, segments, raw) && f.path == row.path && f.mode != SYMLINK_MODE
    decreases entries
  {
    var e := FlattenSource(entries, segments, row);
    MemberOf(entries, e, segments, raw);
    if IsDirectory(e) {
      var longer, parts := segments + [e.name], Split(row.path, '/');
      assert FlattenEntry(e, segments) == FlattenEntries(e.obj.entries, longer);
      FlattenUnderEntry(e, segments, row);
      assert parts[|segments|] == longer[|segments|] == e.name;
      var inner := FlattenSource(e.obj.entries, longer, row);
      FlattenUnderEntry(inner, longer, row);
      f := ListedIsExported(e.obj.entries, longer, row, raw);
      assert EntryFiles(e, segments, raw) == Files(e.obj.entries, longer, raw);
    } else {
      f := ContextFile(row.path, e.mode, e.obj.data);
      assert EntryFiles(e, segments, raw) == [f];
    }
  }

  /** Apart from symbolic links, the export holds exactly the listed files that lie below no excluded directory. */
  lemma ExportedIffListed(root: seq<TreeEntry>, path: string, raw: TreeBytes)
    requires Ordinary(root)
    ensures (exists f :: f in Files(root, [], raw) && f.path == path && f.mode != SYMLINK_MODE)
            <==> (exists row :: row in FlattenEntries(root, []) && row.path == path)
                 && NoneExcludedBetween(Split(path, '/'), 0)
  {
    if f :| f in Files(root, [], raw) && f.path == path && f.mode != SYMLINK_MODE {
      var row := ExportedIsListed(root, [], f, raw);
      NothingExcluded(root, [], f, raw);
    }
    if row :| row in FlattenEntries(root, []) && row.path == path && NoneExcludedBetween(Split(path, '/'), 0) {
      var f := ListedIsExported(root, [], row, raw);
    }
  }
}
