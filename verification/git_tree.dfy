/** Git trees as the server and the build-context exporter read them, and their recursive listing. */
module GitTree {
  import opened Prelude
  import opened Text
  import LfsPointer

  const DIR_MODE := 0x4000
  const SYMLINK_MODE := 0xA000
  const SUBMODULE_MODE := 0xE000

  /** A tree entry's name: git stores neither empty names nor names with a slash. */
  type GitName = s: string | s != "" && '/' !in s
    witness "a"

  /** Other stands for a commit or a tag, Missing for an object the store does not hold. */
  datatype GitObject =
    | Blob(data: Bytes, text: string) // text: the data decoded, for the pointer reader
    | Tree(entries: seq<TreeEntry>)
    | Other(raw: Bytes)
    | Missing

  datatype TreeEntry = TreeEntry(name: GitName, mode: nat, obj: GitObject)

  /** Names are unique inside a tree, and every directory entry leads to a tree. */
  ghost predicate WellFormed(o: GitObject)
    decreases o, 1
  {
    o.Tree? ==> Distinct(o.entries) && WellFormedEntries(o.entries)
  }

  ghost predicate WellFormedEntries(entries: seq<TreeEntry>)
    decreases entries, 0
  {
    if entries == [] then true
    else
      var last := entries[|entries| - 1];
      && WellFormedEntries(entries[..|entries| - 1])
      && (last.mode == DIR_MODE ==> last.obj.Tree? && WellFormed(last.obj))
  }

  ghost predicate Distinct(entries: seq<TreeEntry>) {
    forall i, j :: 0 <= i < j < |entries| ==> entries[i].name != entries[j].name
  }

  // ----- one row of a listing -----

  datatype Kind = File | Dir

  datatype FileEntry = FileEntry(name: string, path: string, kind: Kind, size: Option<int>, lfs: bool)

  predicate IsRegularFile(e: TreeEntry) {
    e.mode != DIR_MODE && e.mode != SYMLINK_MODE && e.mode != SUBMODULE_MODE && e.obj.Blob?
  }

  /** The row a regular file deserves: a short blob that is a pointer shows the size it declares. */
  function FileRow(e: TreeEntry, path: string): FileEntry
    requires IsRegularFile(e)
  {
    var declared := LfsPointer.PointerSize(e.obj.data, e.obj.text);
    if |e.obj.data| < LfsPointer.MAX_POINTER_BYTES && declared.Some?
    then FileEntry(e.name, path, File, declared, true)
    else FileEntry(e.name, path, File, Some(|e.obj.data|), false)
  }

  // ----- the recursive listing of regular files -----

  function PathOf(segments: seq<GitName>): string {
    Join(segments, '/')
  }

  function Flatten(o: GitObject, prefix: seq<GitName>): seq<FileEntry>
    decreases o, 1
  {
    if o.Tree? then FlattenEntries(o.entries, prefix) else []
  }

  function FlattenEntries(entries: seq<TreeEntry>, prefix: seq<GitName>): seq<FileEntry>
    decreases entries, 0
  {
    if entries == [] then []
    else
      var last := entries[|entries| - 1];
      FlattenEntries(entries[..|entries| - 1], prefix) + FlattenEntry(last, prefix)
  }

  function FlattenEntry(e: TreeEntry, prefix: seq<GitName>): seq<FileEntry>
    decreases e, 2
  {
    if e.mode == DIR_MODE then Flatten(e.obj, prefix + [e.name])
    else if IsRegularFile(e) then [FileRow(e, PathOf(prefix + [e.name]))]
    else []
  }

  /** Nesting depth of directories, counting the tree itself. */
  function Depth(o: GitObject): nat
    decreases o, 1
  {
    if o.Tree? then 1 + DepthEntries(o.entries) else 0
  }

  function DepthEntries(entries: seq<TreeEntry>): nat
    decreases entries, 0
  {
    if entries == [] then 0
    else
      var before, last := DepthEntries(entries[..|entries| - 1]), entries[|entries| - 1];
      if last.mode == DIR_MODE && Depth(last.obj) > before then Depth(last.obj) else before
  }

  /** A path's segments can be read back from it. */
  lemma SplitPath(segments: seq<GitName>)
    requires segments != []
    ensures Split(PathOf(segments), '/') == segments
  {
    SplitJoin(segments, '/');
  }

  lemma RowPath(name: GitName, segments: seq<GitName>)
    ensures PathOf(segments + [name]) == if segments == [] then name else PathOf(segments) + "/" + name
  {
    if segments != [] {
      JoinAppend(segments, name, '/');
    } else {
      assert segments + [name] == [name];
    }
  }

  /** Every file listed under an entry has a path that continues the prefix with the entry's name. */
  lemma {:induction false} FlattenUnderEntry(e: TreeEntry, prefix: seq<GitName>, row: FileEntry)
    requires row in FlattenEntry(e, prefix)
    ensures var segs := Split(row.path, '/');
            |prefix| < |segs| && segs[..|prefix| + 1] == prefix + [e.name]
    decreases e
  {
    if e.mode == DIR_MODE {
      var inner := FlattenSource(e.obj.entries, prefix + [e.name], row);
      FlattenUnderEntry(inner, prefix + [e.name], row);
      var segs := Split(row.path, '/');
      assert segs[..|prefix| + 1] == segs[..|prefix| + 2][..|prefix| + 1];
    } else {
      SplitPath(prefix + [e.name]);
    }
  }

  /** The entry that a listed file comes from. */
  lemma {:induction false} FlattenSource(entries: seq<TreeEntry>, prefix: seq<GitName>, row: FileEntry)
    returns (e: TreeEntry)
    requires row in FlattenEntries(entries, prefix)
    ensures e in entries && row in FlattenEntry(e, prefix)
  {
    var init, last := entries[..|entries| - 1], entries[|entries| - 1];
    if row in FlattenEntry(last, prefix) {
      e := last;
    } else {
      e := FlattenSource(init, prefix, row);
    }
  }

  ghost predicate DistinctPaths(rows: seq<FileEntry>) {
    forall i, j :: 0 <= i < j < |rows| ==> rows[i].path != rows[j].path
  }

  lemma DistinctConcat(a: seq<FileEntry>, b: seq<FileEntry>)
    requires DistinctPaths(a) && DistinctPaths(b)
    requires forall x, y :: x in a && y in b ==> x.path != y.path
    ensures DistinctPaths(a + b)
  {
    forall i, j | 0 <= i < j < |a + b| ensures (a + b)[i].path != (a + b)[j].path {
      if i < |a| <= j {
        assert a[i] in a && b[j - |a|] in b;
      }
    }
  }

  /** No path is listed twice. */
  lemma {:induction false} FlattenDistinct(entries: seq<TreeEntry>, prefix: seq<GitName>)
    requires Distinct(entries) && WellFormedEntries(entries)
    ensures DistinctPaths(FlattenEntries(entries, prefix))
    decreases entries
  {
    if entries != [] {
      var init, last := entries[..|entries| - 1], entries[|entries| - 1];
      FlattenDistinct(init, prefix);
      var before, own := FlattenEntries(init, prefix), FlattenEntry(last, prefix);
      if last.mode == DIR_MODE {
        FlattenDistinct(last.obj.entries, prefix + [last.name]);
        assert own == Flatten(last.obj, prefix + [last.name]);
        assert own == FlattenEntries(last.obj.entries, prefix + [last.name]);
      } else {
        assert |own| <= 1;
      }
      forall a, b | a in before && b in own ensures a.path != b.path {
        var e := FlattenSource(init, prefix, a);
        FlattenUnderEntry(e, prefix, a);
        FlattenUnderEntry(last, prefix, b);
        assert e.name == (prefix + [e.name])[|prefix|] && last.name == (prefix + [last.name])[|prefix|];
      }
      DistinctConcat(before, own);
    }
  }
}
