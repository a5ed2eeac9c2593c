/** The client's recursive walk over the server's listing, which addresses directories by path strings. */
module Walk {
  import opened Prelude
  import opened Text
  import opened GitTree
  import RepoFiles

  /** The listing endpoint: the rows of the directory a path names, or an error. */
  type Listing = string -> Result<seq<FileEntry>, RepoFiles.Error>

  /** Recursion is Python's: a walk that nests too deeply is cut off. */
  datatype WalkError = ListingFailed | RecursionLimit

  /** What visiting a directory yields; depth is the recursion still allowed, keep the path filter. */
  function Visit(list: Listing, directory: string, keep: string -> bool, depth: nat)
    : Result<seq<FileEntry>, WalkError>
    decreases depth, 0
  {
    if depth == 0 then Err(RecursionLimit)
    else
      match list(directory)
      case Err(_) => Err(ListingFailed)
      case Ok(rows) => VisitRows(list, rows, keep, depth - 1)
  }

  function VisitRows(list: Listing, rows: seq<FileEntry>, keep: string -> bool, depth: nat)
    : Result<seq<FileEntry>, WalkError>
    decreases depth, |rows| + 1
  {
    if rows == [] then Ok([])
    else
      match VisitRows(list, rows[..|rows| - 1], keep, depth)
      case Err(e) => Err(e)
      case Ok(out) =>
        var entry := rows[|rows| - 1];
        if entry.kind == Dir then
          match Visit(list, entry.path, keep, depth)
          case Err(e) => Err(e)
          case Ok(more) => Ok(out + more)
        else Ok(if keep(entry.path) then out + [entry] else out)
  }

  class RepoWalker {
    const list: Listing
    const keep: string -> bool
    var out: seq<FileEntry>

    constructor (list: Listing, keep: string -> bool)
      ensures this.list == list && this.keep == keep && out == []
    {
      this.list, this.keep, out := list, keep, [];
    }

    /** Appends what the directory yields to the shared list, or reports the error that ends the walk. */
    method VisitDirectory(directory: string, depth: nat) returns (failure: Option<WalkError>)
      modifies this`out
      decreases depth, 0
      ensures match Visit(list, directory, keep, depth)
              case Err(e) => failure == Some(e)
              case Ok(rows) => failure == None && out == old(out) + rows
    {
      if depth == 0 {
        return Some(RecursionLimit);
      }
      var listed := list(directory);
      if listed.Err? {
        return Some(ListingFailed);
      }
      failure := VisitEntries(listed.value, depth - 1);
    }

    method VisitEntries(rows: seq<FileEntry>, depth: nat) returns (failure: Option<WalkError>)
      modifies this`out
      decreases depth, 1
      ensures match VisitRows(list, rows, keep, depth)
              case Err(e) => failure == Some(e)
              case Ok(more) => failure == None && out == old(out) + more
    {
      for i := 0 to |rows|
        invariant VisitRows(list, rows[..i], keep, depth).Ok?
        invariant out == old(out) + VisitRows(list, rows[..i], keep, depth).value
      {
        var entry := rows[i];
        assert rows[..i + 1][..i] == rows[..i];
        if entry.kind == Dir {
          failure := VisitDirectory(entry.path, depth);
          if failure.Some? {
            VisitRowsPrefixFails(list, rows, keep, depth, i + 1);
            return;
          }
        } else if keep(entry.path) {
          out := out + [entry];
        }
      }
      assert rows[..|rows|] == rows;
      return None;
    }
  }

  lemma {:induction false} VisitRowsPrefixFails(
      list: Listing, rows: seq<FileEntry>, keep: string -> bool, depth: nat, i: nat)
    requires i <= |rows| && VisitRows(list, rows[..i], keep, depth).Err?
    ensures VisitRows(list, rows, keep, depth) == VisitRows(list, rows[..i], keep, depth)
    decreases |rows| - i
  {
    if i < |rows| {
      assert rows[..i + 1][..i] == rows[..i];
      VisitRowsPrefixFails(list, rows, keep, depth, i + 1);
    } else {
      assert rows[..i] == rows;
    }
  }

  // ----- the rows that pass the filter -----

  function Kept(rows: seq<FileEntry>, keep: string -> bool): seq<FileEntry> {
    if rows == [] then []
    else
      var before, last := Kept(rows[..|rows| - 1], keep), rows[|rows| - 1];
      if keep(last.path) then before + [last] else before
  }

  lemma {:induction false} KeptConcat(a: seq<FileEntry>, b: seq<FileEntry>, keep: string -> bool)
    ensures Kept(a + b, keep) == Kept(a, keep) + Kept(b, keep)
  {
    if b == [] {
      assert a + b == a;
    } else {
      KeptConcat(a, b[..|b| - 1], keep);
      assert (a + b)[..|a + b| - 1] == a + b[..|b| - 1];
    }
  }

  // ----- what each row contributes, whatever order the rows come in -----

  ghost function Shares(share: FileEntry -> multiset<FileEntry>, rows: seq<FileEntry>): multiset<FileEntry> {
    if rows == [] then multiset{} else Shares(share, rows[..|rows| - 1]) + share(rows[|rows| - 1])
  }

  lemma {:induction false} SharesConcat(
      share: FileEntry -> multiset<FileEntry>, a: seq<FileEntry>, b: seq<FileEntry>)
    ensures Shares(share, a + b) == Shares(share, a) + Shares(share, b)
  {
    if b == [] {
      assert a + b == a;
    } else {
      var init, last := b[..|b| - 1], b[|b| - 1];
      SharesConcat(share, a, init);
      AppendLast(a, b);
      SharesSnoc(share, a + init, last);
    }
  }

  lemma SharesSnoc(share: FileEntry -> multiset<FileEntry>, rows: seq<FileEntry>, last: FileEntry)
    ensures Shares(share, rows + [last]) == Shares(share, rows) + share(last)
  {
    assert (rows + [last])[..|rows|] == rows;
  }

  lemma {:induction false} SharesInsert(
      share: FileEntry -> multiset<FileEntry>, row: FileEntry, rows: seq<FileEntry>)
    ensures Shares(share, RepoFiles.Insert(row, rows)) == Shares(share, rows) + share(row)
  {
    var inserted := RepoFiles.Insert(row, rows);
    if rows == [] || RepoFiles.RowLeq(rows[|rows| - 1], row) {
      assert inserted[..|inserted| - 1] == rows;
    } else {
      var init := rows[..|rows| - 1];
      SharesInsert(share, row, init);
      assert inserted[..|inserted| - 1] == RepoFiles.Insert(row, init);
    }
  }

  /** Sorting does not change the total. */
  lemma {:induction false} SharesSorted(share: FileEntry -> multiset<FileEntry>, rows: seq<FileEntry>)
    ensures Shares(share, RepoFiles.SortRows(rows)) == Shares(share, rows)
  {
    if rows != [] {
      SharesSorted(share, rows[..|rows| - 1]);
      SharesInsert(share, rows[|rows| - 1], RepoFiles.SortRows(rows[..|rows| - 1]));
    }
  }

  /** What visiting one listed row of a directory should yield. */
  ghost function Share(
      entries: seq<TreeEntry>, segments: seq<GitName>, keep: string -> bool, row: FileEntry): multiset<FileEntry>
  {
    if row.kind == Dir then
      match RepoFiles.Child(entries, row.name)
      case None => multiset{}
      case Some(e) => multiset(Kept(Flatten(e.obj, segments + [e.name]), keep))
    else
      var moved := RepoFiles.WithPrefix(row, segments);
      if keep(moved.path) then multiset{moved} else multiset{}
  }

  ghost function Sharing(
      entries: seq<TreeEntry>, segments: seq<GitName>, keep: string -> bool): FileEntry -> multiset<FileEntry>
  {
    row => Share(entries, segments, keep, row)
  }

  lemma EntryShare(entries: seq<TreeEntry>, segments: seq<GitName>, keep: string -> bool, i: nat)
    requires Distinct(entries) && i < |entries|
    ensures Shares(Sharing(entries, segments, keep), RepoFiles.EntryRows(entries[i]))
            == multiset(Kept(FlattenEntry(entries[i], segments), keep))
  {
    var e := entries[i];
    var rows, share := RepoFiles.EntryRows(e), Sharing(entries, segments, keep);
    RepoFiles.ChildOfEntry(entries, i);
    if rows != [] {
      SharesOne(share, rows);
      ShareIsEntry(entries, segments, keep, i, rows[0]);
    }
  }

  lemma ShareIsEntry(entries: seq<TreeEntry>, segments: seq<GitName>, keep: string -> bool, i: nat, row: FileEntry)
    requires Distinct(entries) && i < |entries| && RepoFiles.EntryRows(entries[i]) == [row]
    requires RepoFiles.Child(entries, entries[i].name) == Some(entries[i])
    ensures Share(entries, segments, keep, row) == multiset(Kept(FlattenEntry(entries[i], segments), keep))
  {
    var e := entries[i];
    if e.mode == DIR_MODE {
      assert FlattenEntry(e, segments) == Flatten(e.obj, segments + [e.name]);
    } else {
      var moved := FileRow(e, PathOf(segments + [e.name]));
      MovedRow(e, segments);
      assert FlattenEntry(e, segments) == [moved];
      KeptOne(moved, keep);
    }
  }

  lemma MovedRow(e: TreeEntry, segments: seq<GitName>)
    requires IsRegularFile(e)
    ensures RepoFiles.WithPrefix(FileRow(e, e.name), segments) == FileRow(e, PathOf(segments + [e.name]))
  {
    RowPath(e.name, segments);
  }

  lemma KeptOne(row: FileEntry, keep: string -> bool)
    ensures Kept([row], keep) == if keep(row.path) then [row] else []
  {
    assert [row][..0] == [];
    assert Kept([row][..0], keep) == [];
  }

  lemma SharesOne(share: FileEntry -> multiset<FileEntry>, rows: seq<FileEntry>)
    requires |rows| == 1
    ensures Shares(share, rows) == share(rows[0])
  {
    assert rows[..0] == [];
    assert Shares(share, rows[..0]) == multiset{};
  }

  /** In tree order the shares add up to the recursive listing. */
  lemma {:induction false} SharesOfTree(
      entries: seq<TreeEntry>, segments: seq<GitName>, keep: string -> bool, i: nat)
    requires Distinct(entries) && i <= |entries|
    ensures Shares(Sharing(entries, segments, keep), RepoFiles.RowsOf(entries[..i]))
            == multiset(Kept(FlattenEntries(entries[..i], segments), keep))
  {
    if i > 0 {
      var share := Sharing(entries, segments, keep);
      SharesOfTree(entries, segments, keep, i - 1);
      EntryShare(entries, segments, keep, i - 1);
      EntryAppended(entries, segments, i);
      SharesConcat(share, RepoFiles.RowsOf(entries[..i - 1]), RepoFiles.EntryRows(entries[i - 1]));
      KeptConcat(FlattenEntries(entries[..i - 1], segments), FlattenEntry(entries[i - 1], segments), keep);
    } else {
      assert entries[..i] == [];
    }
  }

  lemma EntryAppended(entries: seq<TreeEntry>, segments: seq<GitName>, i: nat)
    requires 0 < i <= |entries|
    ensures RepoFiles.RowsOf(entries[..i]) == RepoFiles.RowsOf(entries[..i - 1]) + RepoFiles.EntryRows(entries[i - 1])
    ensures FlattenEntries(entries[..i], segments)
            == FlattenEntries(entries[..i - 1], segments) + FlattenEntry(entries[i - 1], segments)
  {
    assert entries[..i][..i - 1] == entries[..i - 1];
  }

  // ----- the walk of a repository -----

  /** Every directory below has a name the listing's path check leaves alone. */
  predicate PlainDirectories(o: GitObject)
    decreases o, 1
  {
    o.Tree? ==> PlainDirectoriesIn(o.entries)
  }

  predicate PlainDirectoriesIn(entries: seq<TreeEntry>)
    decreases entries, 0
  {
    if entries == [] then true
    else
      var last := entries[|entries| - 1];
      && PlainDirectoriesIn(entries[..|entries| - 1])
      && (last.mode == DIR_MODE ==> RepoFiles.PlainName(last.name) && PlainDirectories(last.obj))
  }

  /** Some regular file lies in the tree or below it. */
  predicate HoldsFile(entries: seq<TreeEntry>)
    decreases entries
  {
    if entries == [] then false
    else
      var last := entries[|entries| - 1];
      || HoldsFile(entries[..|entries| - 1])
      || IsRegularFile(last)
      || (last.mode == DIR_MODE && last.obj.Tree? && HoldsFile(last.obj.entries))
  }

  /** The name is mistaken for that of a plainly named directory next to it, and neither of the two holds a file. */
  predicate Redundant(siblings: seq<TreeEntry>, e: TreeEntry) {
    && RepoFiles.PlainName(RepoFiles.Cleaned(e.name))
    && (e.obj.Tree? ==> !HoldsFile(e.obj.entries))
    && match RepoFiles.Child(siblings, RepoFiles.Cleaned(e.name))
       case None => false
       case Some(other) => other.mode == DIR_MODE && other.obj.Tree? && !HoldsFile(other.obj.entries)
  }

  /** Every directory below is plainly named or redundant. */
  predicate Walkable(siblings: seq<TreeEntry>, entries: seq<TreeEntry>)
    decreases entries
  {
    if entries == [] then true
    else
      var last := entries[|entries| - 1];
      && Walkable(siblings, entries[..|entries| - 1])
      && (last.mode == DIR_MODE ==>
            if RepoFiles.PlainName(last.name) then last.obj.Tree? ==> Walkable(last.obj.entries, last.obj.entries)
            else Redundant(siblings, last))
  }

  lemma {:induction false} PlainIsWalkable(siblings: seq<TreeEntry>, entries: seq<TreeEntry>)
    requires PlainDirectoriesIn(entries)
    ensures Walkable(siblings, entries)
    decreases entries
  {
    if entries != [] {
      var last := entries[|entries| - 1];
      PlainIsWalkable(siblings, entries[..|entries| - 1]);
      if last.mode == DIR_MODE && last.obj.Tree? {
        PlainIsWalkable(last.obj.entries, last.obj.entries);
      }
    }
  }

  /** The server lists the directory at every plain segment list, under that prefix. */
  ghost predicate ListsDirectories(list: Listing, tree: seq<TreeEntry>) {
    forall segments: seq<GitName> {:trigger PathOf(segments)} ::
      AllPlain(segments) && RepoFiles.TreeAt(tree, segments).Ok? ==>
        list(PathOf(segments)) == Ok(Rows(RepoFiles.TreeAt(tree, segments).value, segments))
  }

  function Rows(target: seq<TreeEntry>, segments: seq<GitName>): seq<FileEntry> {
    RepoFiles.WithPrefixes(RepoFiles.SortRows(RepoFiles.RowsOf(target)), segments)
  }

  predicate AllPlain(segments: seq<GitName>) {
    forall s :: s in segments ==> RepoFiles.PlainName(s)
  }

  lemma {:induction false} DirectoryEntry(entries: seq<TreeEntry>, i: nat)
    requires i < |entries| && entries[i].mode == DIR_MODE
    requires WellFormedEntries(entries)
    ensures var e := entries[i]; e.obj.Tree? && WellFormed(e.obj) && Depth(e.obj) <= DepthEntries(entries)
  {
    if i < |entries| - 1 {
      DirectoryEntry(entries[..|entries| - 1], i);
    }
  }

  lemma {:induction false} WalkableEntry(siblings: seq<TreeEntry>, entries: seq<TreeEntry>, i: nat)
    requires i < |entries| && entries[i].mode == DIR_MODE && Walkable(siblings, entries)
    ensures var e := entries[i];
            if RepoFiles.PlainName(e.name) then e.obj.Tree? ==> Walkable(e.obj.entries, e.obj.entries)
            else Redundant(siblings, e)
  {
    if i < |entries| - 1 {
      WalkableEntry(siblings, entries[..|entries| - 1], i);
    }
  }

  lemma {:induction false} ChildIndex(entries: seq<TreeEntry>, name: string) returns (i: nat)
    requires RepoFiles.Child(entries, name).Some?
    ensures i < |entries| && entries[i] == RepoFiles.Child(entries, name).value && entries[i].name == name
  {
    if entries[|entries| - 1].name == name {
      i := |entries| - 1;
    } else {
      i := ChildIndex(entries[..|entries| - 1], name);
    }
  }

  lemma {:induction false} NoFileNoRow(entries: seq<TreeEntry>, prefix: seq<GitName>)
    requires !HoldsFile(entries)
    ensures FlattenEntries(entries, prefix) == []
    decreases entries
  {
    if entries != [] {
      var last := entries[|entries| - 1];
      NoFileNoRow(entries[..|entries| - 1], prefix);
      if last.mode == DIR_MODE && last.obj.Tree? {
        NoFileNoRow(last.obj.entries, prefix + [last.name]);
        assert FlattenEntry(last, prefix) == Flatten(last.obj, prefix + [last.name]);
      }
      assert FlattenEntry(last, prefix) == [];
    }
  }

  lemma {:induction false} DirectoryRow(entries: seq<TreeEntry>, row: FileEntry) returns (i: nat)
    requires row in RepoFiles.RowsOf(entries)
    ensures i < |entries| && row in RepoFiles.EntryRows(entries[i])
  {
    if row in RepoFiles.EntryRows(entries[|entries| - 1]) {
      i := |entries| - 1;
    } else {
      i := DirectoryRow(entries[..|entries| - 1], row);
    }
  }

  lemma TreeAtChild(tree: seq<TreeEntry>, segments: seq<GitName>, target: seq<TreeEntry>, i: nat)
    requires RepoFiles.TreeAt(tree, segments) == Ok(target) && Distinct(target)
    requires i < |target| && target[i].mode == DIR_MODE && target[i].obj.Tree?
    ensures RepoFiles.TreeAt(tree, segments + [target[i].name]) == Ok(target[i].obj.entries)
  {
    var longer := segments + [target[i].name];
    assert longer[..|longer| - 1] == segments;
    RepoFiles.ChildOfEntry(target, i);
  }

  /** Every path is answered by the server's listing of the tree. */
  ghost predicate Serves(list: Listing, tree: seq<TreeEntry>) {
    forall path {:trigger RepoFiles.ListFiles(tree, path)} :: list(path) == RepoFiles.ListFiles(tree, path)
  }

  /** How a name below plain names is listed: as what the check makes of it, not at all, or as the directory itself. */
  lemma OddListing(list: Listing, tree: seq<TreeEntry>, segments: seq<GitName>, name: GitName)
    requires Serves(list, tree) && AllPlain(segments)
    ensures var path, cleaned := PathOf(segments + [name]), RepoFiles.Cleaned(name);
            if RepoFiles.PlainName(cleaned) then list(path) == list(PathOf(segments + [cleaned]))
            else list(path).Err? || list(path) == list(PathOf(segments))
  {
    var path, cleaned := PathOf(segments + [name]), RepoFiles.Cleaned(name);
    RepoFiles.CheckedPath(segments, name);
    assert list(path) == RepoFiles.ListFiles(tree, path);
    if RepoFiles.PlainName(cleaned) {
      var longer := segments + [cleaned];
      RepoFiles.ValidatePathInverts(longer);
      assert list(PathOf(longer)) == RepoFiles.ListFiles(tree, PathOf(longer));
    } else {
      RepoFiles.ValidatePathInverts(segments);
      assert list(PathOf(segments)) == RepoFiles.ListFiles(tree, PathOf(segments));
    }
  }

  ghost predicate Yields(r: Result<seq<FileEntry>, WalkError>, files: multiset<FileEntry>) {
    r.Ok? && multiset(r.value) == files
  }

  /** Where a visit stands: a plain segment list and the tree found there. */
  ghost predicate At(tree: seq<TreeEntry>, segments: seq<GitName>, target: seq<TreeEntry>) {
    && RepoFiles.TreeAt(tree, segments) == Ok(target)
    && AllPlain(segments)
    && Distinct(target) && WellFormedEntries(target) && Walkable(target, target)
  }

  /** Going through some rows of a directory yields the shares of those rows. */
  ghost predicate RowsYieldShares(
      list: Listing, segments: seq<GitName>, target: seq<TreeEntry>, keep: string -> bool, depth: nat,
      rows: seq<FileEntry>)
  {
    Yields(VisitRows(list, RepoFiles.WithPrefixes(rows, segments), keep, depth),
           Shares(Sharing(target, segments, keep), rows))
  }

  /** A visit yields the recursive listing if going through the directory's rows yields their shares. */
  lemma VisitFromRows(
      list: Listing, tree: seq<TreeEntry>, segments: seq<GitName>, target: seq<TreeEntry>, keep: string -> bool,
      depth: nat, rows: seq<FileEntry>)
    requires Serves(list, tree) && ListsDirectories(list, tree) && At(tree, segments, target) && depth > 0
    requires rows == RepoFiles.SortRows(RepoFiles.RowsOf(target))
    requires RowsYieldShares(list, segments, target, keep, depth - 1, rows)
    ensures Yields(Visit(list, PathOf(segments), keep, depth), Listed(target, segments, keep))
  {
    ListingTotal(target, segments, keep);
  }

  ghost function Listed(target: seq<TreeEntry>, segments: seq<GitName>, keep: string -> bool): multiset<FileEntry> {
    multiset(Kept(FlattenEntries(target, segments), keep))
  }

  /** Visiting the directory at a segment list yields its recursive listing. */
  lemma {:induction false} VisitAt(
      list: Listing, tree: seq<TreeEntry>, segments: seq<GitName>, target: seq<TreeEntry>, keep: string -> bool,
      depth: nat)
    requires Serves(list, tree) && ListsDirectories(list, tree) && At(tree, segments, target)
    requires depth > DepthEntries(target)
    ensures Yields(Visit(list, PathOf(segments), keep, depth), Listed(target, segments, keep))
    decreases depth, 0
  {
    var rows, left := RepoFiles.SortRows(RepoFiles.RowsOf(target)), depth - 1;
    SortedRowsAreRows(target);
    VisitRowsAt(list, tree, segments, target, keep, left, rows);
    VisitFromRows(list, tree, segments, target, keep, depth, rows);
  }

  lemma SortedRowsAreRows(target: seq<TreeEntry>)
    ensures forall row :: row in RepoFiles.SortRows(RepoFiles.RowsOf(target)) ==> row in RepoFiles.RowsOf(target)
  {
    forall row | row in RepoFiles.SortRows(RepoFiles.RowsOf(target)) ensures row in RepoFiles.RowsOf(target) {
      assert row in multiset(RepoFiles.SortRows(RepoFiles.RowsOf(target)));
    }
  }

  lemma ListingTotal(target: seq<TreeEntry>, segments: seq<GitName>, keep: string -> bool)
    requires Distinct(target)
    ensures Shares(Sharing(target, segments, keep), RepoFiles.SortRows(RepoFiles.RowsOf(target)))
            == Listed(target, segments, keep)
  {
    SharesSorted(Sharing(target, segments, keep), RepoFiles.RowsOf(target));
    SharesOfTree(target, segments, keep, |target|);
    assert target[..|target|] == target;
  }

  lemma {:induction false} VisitRowsAt(
      list: Listing, tree: seq<TreeEntry>, segments: seq<GitName>, target: seq<TreeEntry>, keep: string -> bool,
      depth: nat, rows: seq<FileEntry>)
    requires Serves(list, tree) && ListsDirectories(list, tree) && At(tree, segments, target)
    requires depth >= DepthEntries(target)
    requires forall row :: row in rows ==> row in RepoFiles.RowsOf(target)
    ensures RowsYieldShares(list, segments, target, keep, depth, rows)
    decreases depth, |rows| + 4
  {
    if rows != [] {
      var init, row := rows[..|rows| - 1], rows[|rows| - 1];
      var moved := RepoFiles.WithPrefixes(rows, segments);
      assert moved[..|moved| - 1] == RepoFiles.WithPrefixes(init, segments);
      VisitRowsAt(list, tree, segments, target, keep, depth, init);
      if row.kind == Dir {
        VisitDirectoryRow(list, tree, segments, target, keep, depth, row);
      }
    }
  }

  lemma {:induction false} VisitDirectoryRow(
      list: Listing, tree: seq<TreeEntry>, segments: seq<GitName>, target: seq<TreeEntry>, keep: string -> bool,
      depth: nat, row: FileEntry)
    requires Serves(list, tree) && ListsDirectories(list, tree) && At(tree, segments, target)
    requires depth >= DepthEntries(target)
    requires row in RepoFiles.RowsOf(target) && row.kind == Dir
    ensures Yields(Visit(list, RepoFiles.WithPrefix(row, segments).path, keep, depth),
                   Share(target, segments, keep, row))
    decreases depth, 3
  {
    var i := DirectoryRow(target, row);
    ShareOfDirectory(target, segments, keep, i, row);
    VisitDirectoryEntry(list, tree, segments, target, keep, depth, i);
  }

  lemma ShareOfDirectory(
      target: seq<TreeEntry>, segments: seq<GitName>, keep: string -> bool, i: nat, row: FileEntry)
    requires Distinct(target) && i < |target| && row in RepoFiles.EntryRows(target[i]) && row.kind == Dir
    ensures target[i].mode == DIR_MODE
    ensures RepoFiles.WithPrefix(row, segments).path == PathOf(segments + [target[i].name])
    ensures Share(target, segments, keep, row)
            == multiset(Kept(Flatten(target[i].obj, segments + [target[i].name]), keep))
  {
    RowPath(target[i].name, segments);
    RepoFiles.ChildOfEntry(target, i);
  }

  lemma {:induction false} VisitDirectoryEntry(
      list: Listing, tree: seq<TreeEntry>, segments: seq<GitName>, target: seq<TreeEntry>, keep: string -> bool,
      depth: nat, i: nat)
    requires Serves(list, tree) && ListsDirectories(list, tree) && At(tree, segments, target)
    requires depth >= DepthEntries(target) && i < |target| && target[i].mode == DIR_MODE
    ensures var longer := segments + [target[i].name];
            Yields(Visit(list, PathOf(longer), keep, depth), multiset(Kept(Flatten(target[i].obj, longer), keep)))
    decreases depth, 2
  {
    var e := target[i];
    DirectoryEntry(target, i);
    WalkableEntry(target, target, i);
    if RepoFiles.PlainName(e.name) {
      TreeAtChild(tree, segments, target, i);
      VisitAt(list, tree, segments + [e.name], e.obj.entries, keep, depth);
    } else {
      VisitRedundant(list, tree, segments, target, keep, depth, e);
      NoFileNoRow(e.obj.entries, segments + [e.name]);
    }
  }

  /** A redundant directory is listed as its neighbour, which yields nothing. */
  lemma {:induction false} VisitRedundant(
      list: Listing, tree: seq<TreeEntry>, segments: seq<GitName>, target: seq<TreeEntry>, keep: string -> bool,
      depth: nat, e: TreeEntry)
    requires Serves(list, tree) && ListsDirectories(list, tree) && At(tree, segments, target)
    requires depth >= DepthEntries(target)
    requires Redundant(target, e)
    ensures Yields(Visit(list, PathOf(segments + [e.name]), keep, depth), multiset{})
    decreases depth, 1
  {
    var name := RepoFiles.Cleaned(e.name);
    var j := ChildIndex(target, name);
    var other := target[j];
    DirectoryEntry(target, j);
    WalkableEntry(target, target, j);
    TreeAtChild(tree, segments, target, j);
    VisitAt(list, tree, segments + [name], other.obj.entries, keep, depth);
    NoFileNoRow(other.obj.entries, segments + [name]);
    OddListing(list, tree, segments, e.name);
    SameListing(list, PathOf(segments + [e.name]), PathOf(segments + [name]), keep, depth);
  }

  lemma SameListing(list: Listing, a: string, b: string, keep: string -> bool, depth: nat)
    requires list(a) == list(b)
    ensures Visit(list, a, keep, depth) == Visit(list, b, keep, depth)
  {
  }

  // ----- the main results -----

  lemma ServesDirectories(list: Listing, tree: seq<TreeEntry>)
    requires Serves(list, tree)
    ensures ListsDirectories(list, tree)
  {
    forall segments: seq<GitName> | AllPlain(segments) && RepoFiles.TreeAt(tree, segments).Ok?
      ensures list(PathOf(segments)) == Ok(Rows(RepoFiles.TreeAt(tree, segments).value, segments))
    {
      RepoFiles.ValidatePathInverts(segments);
      assert list(PathOf(segments)) == RepoFiles.ListFiles(tree, PathOf(segments));
    }
  }

  ghost predicate NoPathTwice(files: multiset<FileEntry>) {
    && (forall x :: files[x] <= 1)
    && (forall x, y :: x in files && y in files && x.path == y.path ==> x == y)
  }

  lemma {:induction false} DistinctKept(rows: seq<FileEntry>, keep: string -> bool)
    requires DistinctPaths(rows)
    ensures NoPathTwice(multiset(Kept(rows, keep)))
    ensures forall x :: x in Kept(rows, keep) ==> x in rows
  {
    if rows != [] {
      var init, last := rows[..|rows| - 1], rows[|rows| - 1];
      DistinctKept(init, keep);
      forall x | x in Kept(init, keep) ensures x.path != last.path {
        var i :| 0 <= i < |init| && init[i] == x;
        assert rows[i].path != rows[|rows| - 1].path;
      }
    }
  }

  /** The walk from the root succeeds with exactly the listed files that pass the filter. */
  ghost predicate WalksAll(list: Listing, tree: seq<TreeEntry>, keep: string -> bool, depth: nat) {
    Yields(Visit(list, "", keep, depth), Listed(tree, [], keep))
  }

  /**
   With plain directory names, and recursion deep enough for the tree, the walk returns exactly the files of the
   recursive listing that pass the filter, each path once.
   */
  lemma WalkIsComplete(list: Listing, tree: seq<TreeEntry>, keep: string -> bool, depth: nat)
    requires Serves(list, tree) && WellFormed(Tree(tree)) && PlainDirectoriesIn(tree)
    requires depth > DepthEntries(tree)
    ensures WalksAll(list, tree, keep, depth)
    ensures NoPathTwice(Listed(tree, [], keep))
  {
    assert Distinct(tree) && WellFormedEntries(tree);
    PlainIsWalkable(tree, tree);
    ServesDirectories(list, tree);
    VisitAt(list, tree, [], tree, keep, depth);
    FlattenDistinct(tree, []);
    DistinctKept(FlattenEntries(tree, []), keep);
  }

  /** All but the last segment of a path are names the path check leaves alone. */
  ghost predicate PlainAncestors(path: string) {
    var segments := Split(path, '/');
    forall i :: 0 <= i < |segments| - 1 ==> RepoFiles.PlainName(segments[i])
  }

  lemma PlainRow(name: GitName, segments: seq<GitName>, row: FileEntry)
    requires AllPlain(segments) && row.name == row.path == name
    ensures PlainAncestors(RepoFiles.WithPrefix(row, segments).path)
  {
    RowPath(name, segments);
    SplitPath(segments + [name]);
  }

  lemma RowSource(rows: seq<FileEntry>, segments: seq<GitName>, row: FileEntry) returns (source: FileEntry)
    requires row in RepoFiles.WithPrefixes(rows, segments)
    ensures source in rows && RepoFiles.WithPrefix(source, segments) == row
  {
    var k :| 0 <= k < |rows| && RepoFiles.WithPrefix(rows[k], segments) == row;
    source := rows[k];
  }

  lemma RowsArePlain(target: seq<TreeEntry>, segments: seq<GitName>, row: FileEntry)
    requires AllPlain(segments) && row in Rows(target, segments)
    ensures PlainAncestors(row.path)
  {
    SortedRowsAreRows(target);
    var source := RowSource(RepoFiles.SortRows(RepoFiles.RowsOf(target)), segments, row);
    PlainSource(target, segments, source);
  }

  lemma PlainSource(target: seq<TreeEntry>, segments: seq<GitName>, source: FileEntry)
    requires AllPlain(segments) && source in RepoFiles.RowsOf(target)
    ensures PlainAncestors(RepoFiles.WithPrefix(source, segments).path)
  {
    var i := DirectoryRow(target, source);
    RowName(target[i], source);
    PlainRow(target[i].name, segments, source);
  }

  lemma RowName(e: TreeEntry, row: FileEntry)
    requires row in RepoFiles.EntryRows(e)
    ensures row.name == row.path == e.name
  {
  }

  ghost predicate ListsPlainPaths(list: Listing) {
    forall path, row :: list(path).Ok? && row in list(path).value ==> PlainAncestors(row.path)
  }

  lemma ServesPlainPaths(list: Listing, tree: seq<TreeEntry>)
    requires Serves(list, tree)
    ensures ListsPlainPaths(list)
  {
    forall path, row | list(path).Ok? && row in list(path).value ensures PlainAncestors(row.path) {
      assert list(path) == RepoFiles.ListFiles(tree, path);
      var segments := RepoFiles.ValidatePath(path).value;
      RowsArePlain(RepoFiles.TreeAt(tree, segments).value, segments, row);
    }
  }

  /** Whatever the names in the tree, the walk only returns paths below plainly named directories. */
  lemma {:induction false} VisitedPathsArePlain(
      list: Listing, directory: string, keep: string -> bool, depth: nat, row: FileEntry)
    requires ListsPlainPaths(list)
    requires var r := Visit(list, directory, keep, depth); r.Ok? && row in r.value
    ensures PlainAncestors(row.path)
    decreases depth, 0
  {
    VisitedRowsArePlain(list, list(directory).value, keep, depth - 1, row);
  }

  lemma {:induction false} VisitedRowsArePlain(
      list: Listing, rows: seq<FileEntry>, keep: string -> bool, depth: nat, row: FileEntry)
    requires ListsPlainPaths(list)
    requires forall r :: r in rows ==> PlainAncestors(r.path)
    requires var r := VisitRows(list, rows, keep, depth); r.Ok? && row in r.value
    ensures PlainAncestors(row.path)
    decreases depth, |rows| + 1
  {
    var init, last := rows[..|rows| - 1], rows[|rows| - 1];
    if row in VisitRows(list, init, keep, depth).value {
      VisitedRowsArePlain(list, init, keep, depth, row);
    } else if last.kind == Dir {
      VisitedPathsArePlain(list, last.path, keep, depth, row);
    }
  }

  /**
   Below every directory there is a file. Git records no empty directories, but it does record directories that hold
   nothing but symbolic links or submodules; those are excluded here.
   */
  predicate Populated(entries: seq<TreeEntry>)
    decreases entries
  {
    if entries == [] then true
    else
      var last := entries[|entries| - 1];
      && Populated(entries[..|entries| - 1])
      && (last.mode == DIR_MODE && last.obj.Tree? ==> HoldsFile(last.obj.entries) && Populated(last.obj.entries))
  }

  /** Every directory with a file somewhere below it has a plain name. */
  predicate FilesBelowPlainNames(entries: seq<TreeEntry>)
    decreases entries
  {
    if entries == [] then true
    else
      var last := entries[|entries| - 1];
      && FilesBelowPlainNames(entries[..|entries| - 1])
      && (last.mode == DIR_MODE && last.obj.Tree? && HoldsFile(last.obj.entries) ==>
            RepoFiles.PlainName(last.name) && FilesBelowPlainNames(last.obj.entries))
  }

  /** With a file below every directory no directory is redundant. */
  lemma {:induction false} PopulatedPlain(siblings: seq<TreeEntry>, entries: seq<TreeEntry>)
    requires WellFormedEntries(entries) && Populated(entries)
    ensures Walkable(siblings, entries) <==> PlainDirectoriesIn(entries)
    decreases entries
  {
    if entries != [] {
      var last := entries[|entries| - 1];
      PopulatedPlain(siblings, entries[..|entries| - 1]);
      if last.mode == DIR_MODE && last.obj.Tree? {
        PopulatedPlain(last.obj.entries, last.obj.entries);
      }
    }
  }

  lemma {:induction false} FileBelow(entries: seq<TreeEntry>, prefix: seq<GitName>) returns (row: FileEntry)
    requires HoldsFile(entries)
    ensures row in FlattenEntries(entries, prefix)
    decreases entries
  {
    var init, last := entries[..|entries| - 1], entries[|entries| - 1];
    if IsRegularFile(last) {
      row := FileRow(last, PathOf(prefix + [last.name]));
      assert FlattenEntry(last, prefix) == [row];
    } else if HoldsFile(init) {
      row := FileBelow(init, prefix);
    } else {
      row := FileBelow(last.obj.entries, prefix + [last.name]);
      assert FlattenEntry(last, prefix) == Flatten(last.obj, prefix + [last.name]);
    }
  }

  lemma {:induction false} FileBelowOddDirectory(entries: seq<TreeEntry>, prefix: seq<GitName>)
    returns (row: FileEntry)
    requires WellFormedEntries(entries) && !FilesBelowPlainNames(entries)
    ensures row in FlattenEntries(entries, prefix) && !PlainAncestors(row.path)
    decreases entries
  {
    var init, last := entries[..|entries| - 1], entries[|entries| - 1];
    if !FilesBelowPlainNames(init) {
      row := FileBelowOddDirectory(init, prefix);
    } else {
      var inner, longer := last.obj.entries, prefix + [last.name];
      assert FlattenEntry(last, prefix) == Flatten(last.obj, longer);
      if RepoFiles.PlainName(last.name) {
        row := FileBelowOddDirectory(inner, longer);
      } else {
        row := FileBelow(inner, longer);
        var e := FlattenSource(inner, longer, row);
        FlattenUnderEntry(e, longer, row);
        assert (longer + [e.name])[|prefix|] == last.name;
      }
    }
  }

  /** Whatever else the tree holds: a file below an oddly named directory never comes out. */
  lemma WalkMissesOddDirectories(list: Listing, tree: seq<TreeEntry>, keep: string -> bool, depth: nat)
    requires ListsPlainPaths(list) && WellFormedEntries(tree) && !FilesBelowPlainNames(tree)
    requires forall path :: keep(path)
    ensures !WalksAll(list, tree, keep, depth)
  {
    var row := FileBelowOddDirectory(tree, []);
    KeptAll(FlattenEntries(tree, []), keep);
    assert row in Listed(tree, [], keep);
    var r := Visit(list, "", keep, depth);
    if r.Ok? && row in multiset(r.value) {
      VisitedPathsArePlain(list, "", keep, depth, row);
    }
  }

  // ----- when the walk goes wrong -----

  /** What the visit of one row yields is part of what going through all rows yields. */
  lemma {:induction false} VisitedPart(list: Listing, rows: seq<FileEntry>, keep: string -> bool, depth: nat, k: nat)
    requires k < |rows| && VisitRows(list, rows, keep, depth).Ok?
    ensures var out := VisitRows(list, rows, keep, depth).value;
            if rows[k].kind == Dir then
              var part := Visit(list, rows[k].path, keep, depth); part.Ok? && multiset(part.value) <= multiset(out)
            else keep(rows[k].path) ==> rows[k] in out
  {
    if k < |rows| - 1 {
      VisitedPart(list, rows[..|rows| - 1], keep, depth, k);
    }
  }

  lemma {:induction false} VisitedBoth(
      list: Listing, rows: seq<FileEntry>, keep: string -> bool, depth: nat, j: nat, k: nat)
    requires j < k < |rows| && rows[j].kind == rows[k].kind == Dir && VisitRows(list, rows, keep, depth).Ok?
    ensures var a, b := Visit(list, rows[j].path, keep, depth), Visit(list, rows[k].path, keep, depth);
            && a.Ok? && b.Ok?
            && multiset(a.value) + multiset(b.value) <= multiset(VisitRows(list, rows, keep, depth).value)
  {
    if k < |rows| - 1 {
      VisitedBoth(list, rows[..|rows| - 1], keep, depth, j, k);
    } else {
      VisitedPart(list, rows[..|rows| - 1], keep, depth, j);
    }
  }

  lemma {:induction false} RowOfDirectory(entries: seq<TreeEntry>, i: nat)
    requires i < |entries| && RepoFiles.EntryRows(entries[i]) != []
    ensures RepoFiles.EntryRows(entries[i])[0] in RepoFiles.RowsOf(entries)
  {
    if i < |entries| - 1 {
      RowOfDirectory(entries[..|entries| - 1], i);
    }
  }

  lemma EntryRow(e: TreeEntry, segments: seq<GitName>, row: FileEntry)
    requires RepoFiles.EntryRows(e) == [row]
    ensures var moved := RepoFiles.WithPrefix(row, segments);
            moved.path == PathOf(segments + [e.name]) && (moved.kind == Dir <==> e.mode == DIR_MODE)
  {
    RowPath(e.name, segments);
  }

  lemma SortedHas(row: FileEntry, rows: seq<FileEntry>, sorted: seq<FileEntry>) returns (k: nat)
    requires row in rows && multiset(sorted) == multiset(rows)
    ensures k < |sorted| && sorted[k] == row
  {
    assert row in multiset(rows);
    assert row in multiset(sorted);
    k :| 0 <= k < |sorted| && sorted[k] == row;
  }

  /** Where the row of an entry stands in the listing. */
  lemma RowListed(target: seq<TreeEntry>, segments: seq<GitName>, i: nat, rows: seq<FileEntry>) returns (k: nat)
    requires i < |target| && RepoFiles.EntryRows(target[i]) != [] && rows == Rows(target, segments)
    ensures k < |rows| && rows[k].path == PathOf(segments + [target[i].name])
    ensures rows[k].kind == Dir <==> target[i].mode == DIR_MODE
  {
    var row := RepoFiles.EntryRows(target[i])[0];
    RowOfDirectory(target, i);
    EntryRow(target[i], segments, row);
    k := SortedHas(row, RepoFiles.RowsOf(target), RepoFiles.SortRows(RepoFiles.RowsOf(target)));
  }

  /** A directory that lists itself under another name is visited for ever. */
  lemma {:induction false} LoopFails(list: Listing, directory: string, k: nat, keep: string -> bool, depth: nat)
    requires list(directory).Ok? && k < |list(directory).value| && list(directory).value[k].kind == Dir
    requires list(list(directory).value[k].path) == list(directory)
    ensures Visit(list, directory, keep, depth).Err?
  {
    if depth > 0 {
      var rows := list(directory).value;
      LoopFails(list, directory, k, keep, depth - 1);
      SameListing(list, rows[k].path, directory, keep, depth - 1);
      if VisitRows(list, rows, keep, depth - 1).Ok? {
        VisitedPart(list, rows, keep, depth - 1, k);
      }
    }
  }

  /** A directory of the tree at a plain segment list, with every file below plainly named directories. */
  ghost predicate Stands(tree: seq<TreeEntry>, segments: seq<GitName>, target: seq<TreeEntry>) {
    && RepoFiles.TreeAt(tree, segments) == Ok(target) && AllPlain(segments)
    && Distinct(target) && WellFormedEntries(target) && FilesBelowPlainNames(target)
  }

  lemma {:induction false} FilesBelowEntry(entries: seq<TreeEntry>, i: nat)
    requires i < |entries| && entries[i].mode == DIR_MODE && FilesBelowPlainNames(entries)
    ensures var e := entries[i];
            e.obj.Tree? && HoldsFile(e.obj.entries) ==>
              RepoFiles.PlainName(e.name) && FilesBelowPlainNames(e.obj.entries)
  {
    if i < |entries| - 1 {
      FilesBelowEntry(entries[..|entries| - 1], i);
    }
  }

  lemma {:induction false} NoFileBelow(entries: seq<TreeEntry>)
    requires !HoldsFile(entries)
    ensures FilesBelowPlainNames(entries)
  {
    if entries != [] {
      NoFileBelow(entries[..|entries| - 1]);
    }
  }

  lemma {:induction false} FileHolder(entries: seq<TreeEntry>) returns (i: nat)
    requires HoldsFile(entries)
    ensures i < |entries|
    ensures var e := entries[i];
            IsRegularFile(e) || (e.mode == DIR_MODE && e.obj.Tree? && HoldsFile(e.obj.entries))
  {
    if HoldsFile(entries[..|entries| - 1]) {
      i := FileHolder(entries[..|entries| - 1]);
    } else {
      i := |entries| - 1;
    }
  }

  lemma StandsBelow(tree: seq<TreeEntry>, segments: seq<GitName>, target: seq<TreeEntry>, i: nat)
    requires Stands(tree, segments, target) && i < |target| && target[i].mode == DIR_MODE
    requires RepoFiles.PlainName(target[i].name)
    ensures target[i].obj.Tree?
    ensures FilesBelowPlainNames(target[i].obj.entries) ==>
              Stands(tree, segments + [target[i].name], target[i].obj.entries)
  {
    DirectoryEntry(target, i);
    TreeAtChild(tree, segments, target, i);
  }

  /** What a visit of a listed directory comes across, the whole visit comes across. */
  lemma FromPart(list: Listing, directory: string, rows: seq<FileEntry>, k: nat, keep: string -> bool, depth: nat)
    requires list(directory) == Ok(rows) && k < |rows| && Visit(list, directory, keep, depth).Ok?
    ensures depth > 0
    ensures var out := Visit(list, directory, keep, depth).value;
            if rows[k].kind == Dir then
              var part := Visit(list, rows[k].path, keep, depth - 1);
              part.Ok? && forall row :: row in part.value ==> row in out
            else keep(rows[k].path) ==> rows[k] in out
  {
    VisitedPart(list, rows, keep, depth - 1, k);
    var out := Visit(list, directory, keep, depth).value;
    if rows[k].kind == Dir {
      var part := Visit(list, rows[k].path, keep, depth - 1).value;
      forall row | row in part ensures row in out {
        assert row in multiset(part);
        assert row in multiset(out);
      }
    }
  }

  /** A file of the directory itself comes out, or a directory below holds one. */
  lemma HolderVisited(list: Listing, segments: seq<GitName>, target: seq<TreeEntry>, rows: seq<FileEntry>,
                      keep: string -> bool, depth: nat) returns (i: nat, row: FileEntry)
    requires rows == Rows(target, segments) && list(PathOf(segments)) == Ok(rows) && HoldsFile(target)
    requires (forall path :: keep(path)) && Visit(list, PathOf(segments), keep, depth).Ok?
    ensures i < |target| && depth > 0
    ensures var e, out := target[i], Visit(list, PathOf(segments), keep, depth).value;
            if e.mode == DIR_MODE then
              var part := Visit(list, PathOf(segments + [e.name]), keep, depth - 1);
              e.obj.Tree? && HoldsFile(e.obj.entries) && part.Ok? && forall r :: r in part.value ==> r in out
            else row in out
  {
    i := FileHolder(target);
    var k := RowListed(target, segments, i, rows);
    row := rows[k];
    FromPart(list, PathOf(segments), rows, k, keep, depth);
  }

  /** A visit that succeeds comes across a file if there is one below. */
  lemma {:induction false} FileFound(
      list: Listing, tree: seq<TreeEntry>, segments: seq<GitName>, target: seq<TreeEntry>, keep: string -> bool,
      depth: nat) returns (row: FileEntry)
    requires ListsDirectories(list, tree) && Stands(tree, segments, target) && HoldsFile(target)
    requires (forall path :: keep(path)) && Visit(list, PathOf(segments), keep, depth).Ok?
    ensures row in Visit(list, PathOf(segments), keep, depth).value
    decreases depth, 0
  {
    var i;
    i, row := HolderVisited(list, segments, target, Rows(target, segments), keep, depth);
    if target[i].mode == DIR_MODE {
      FilesBelowEntry(target, i);
      row := FileBelowEntry(list, tree, segments, target, keep, depth - 1, i);
    }
  }

  lemma {:induction false} FileBelowEntry(
      list: Listing, tree: seq<TreeEntry>, segments: seq<GitName>, target: seq<TreeEntry>, keep: string -> bool,
      depth: nat, i: nat) returns (row: FileEntry)
    requires ListsDirectories(list, tree) && Stands(tree, segments, target) && forall path :: keep(path)
    requires i < |target| && target[i].mode == DIR_MODE && RepoFiles.PlainName(target[i].name)
    requires target[i].obj.Tree? && HoldsFile(target[i].obj.entries)
    requires Visit(list, PathOf(segments + [target[i].name]), keep, depth).Ok?
    ensures row in Visit(list, PathOf(segments + [target[i].name]), keep, depth).value
    decreases depth, 1
  {
    FilesBelowEntry(target, i);
    StandsBelow(tree, segments, target, i);
    row := FileFound(list, tree, segments + [target[i].name], target[i].obj.entries, keep, depth);
  }

  /** The walk fails, or a row comes out twice. */
  ghost predicate GoesWrong(r: Result<seq<FileEntry>, WalkError>) {
    r.Err? || exists row :: multiset(r.value)[row] >= 2
  }

  lemma PartGoesWrong(list: Listing, directory: string, rows: seq<FileEntry>, k: nat, keep: string -> bool,
                      depth: nat)
    requires list(directory) == Ok(rows) && k < |rows| && rows[k].kind == Dir && depth > 0
    requires GoesWrong(Visit(list, rows[k].path, keep, depth - 1))
    ensures GoesWrong(Visit(list, directory, keep, depth))
  {
    if VisitRows(list, rows, keep, depth - 1).Ok? {
      VisitedPart(list, rows, keep, depth - 1, k);
      var part := Visit(list, rows[k].path, keep, depth - 1);
      var row :| multiset(part.value)[row] >= 2;
      assert multiset(VisitRows(list, rows, keep, depth - 1).value)[row] >= 2;
    }
  }

  /** A visit that succeeds returns this row. */
  ghost predicate ComesAcross(list: Listing, directory: string, keep: string -> bool, depth: nat, row: FileEntry) {
    var r := Visit(list, directory, keep, depth);
    r.Ok? ==> row in r.value
  }

  /** Two of the listed directories have different paths and the same listing. */
  ghost predicate Twins(list: Listing, directory: string, j: nat, k: nat) {
    && list(directory).Ok?
    && var rows := list(directory).value;
       && j < |rows| && k < |rows| && rows[j].kind == rows[k].kind == Dir
       && rows[j].path != rows[k].path && list(rows[j].path) == list(rows[k].path)
  }

  lemma SameVisitTwice(list: Listing, directory: string, j: nat, k: nat, keep: string -> bool, depth: nat,
                       found: FileEntry)
    requires Twins(list, directory, j, k) && depth > 0
    requires ComesAcross(list, list(directory).value[j].path, keep, depth - 1, found)
    ensures GoesWrong(Visit(list, directory, keep, depth))
  {
    var rows := list(directory).value;
    var whole := VisitRows(list, rows, keep, depth - 1);
    if whole.Ok? {
      SameListing(list, rows[j].path, rows[k].path, keep, depth - 1);
      if j < k {
        VisitedBoth(list, rows, keep, depth - 1, j, k);
      } else {
        VisitedBoth(list, rows, keep, depth - 1, k, j);
      }
      var part := Visit(list, rows[j].path, keep, depth - 1).value;
      assert found in multiset(part);
      assert multiset(whole.value)[found] >= 2;
    }
  }

  lemma {:induction false} UnwalkableEntry(siblings: seq<TreeEntry>, entries: seq<TreeEntry>) returns (i: nat)
    requires !Walkable(siblings, entries)
    ensures i < |entries| && entries[i].mode == DIR_MODE
    ensures var e := entries[i];
            if RepoFiles.PlainName(e.name) then e.obj.Tree? && !Walkable(e.obj.entries, e.obj.entries)
            else !Redundant(siblings, e)
  {
    if Walkable(siblings, entries[..|entries| - 1]) {
      i := |entries| - 1;
    } else {
      i := UnwalkableEntry(siblings, entries[..|entries| - 1]);
    }
  }

  lemma NoSuchDirectory(list: Listing, tree: seq<TreeEntry>, segments: seq<GitName>, target: seq<TreeEntry>,
                        name: GitName)
    requires Serves(list, tree) && AllPlain(segments) && RepoFiles.PlainName(name)
    requires RepoFiles.TreeAt(tree, segments) == Ok(target)
    requires var c := RepoFiles.Child(target, name); c.None? || c.value.mode != DIR_MODE || !c.value.obj.Tree?
    ensures list(PathOf(segments + [name])).Err?
  {
    var longer := segments + [name];
    RepoFiles.ValidatePathInverts(longer);
    assert longer[..|longer| - 1] == segments;
    assert list(PathOf(longer)) == RepoFiles.ListFiles(tree, PathOf(longer));
  }

  /** Where the row of a directory stands in what the server lists for its parent. */
  lemma RowAt(list: Listing, tree: seq<TreeEntry>, segments: seq<GitName>, target: seq<TreeEntry>, i: nat)
    returns (k: nat)
    requires ListsDirectories(list, tree) && AllPlain(segments) && RepoFiles.TreeAt(tree, segments) == Ok(target)
    requires i < |target| && target[i].mode == DIR_MODE
    ensures list(PathOf(segments)).Ok? && k < |list(PathOf(segments)).value|
    ensures var row := list(PathOf(segments)).value[k];
            row.path == PathOf(segments + [target[i].name]) && row.kind == Dir
  {
    k := RowListed(target, segments, i, Rows(target, segments));
  }

  lemma UncleanGoesWrong(list: Listing, directory: string, rows: seq<FileEntry>, k: nat, keep: string -> bool,
                         depth: nat)
    requires list(directory) == Ok(rows) && k < |rows| && rows[k].kind == Dir && depth > 0
    requires list(rows[k].path).Err? || list(rows[k].path) == list(directory)
    ensures GoesWrong(Visit(list, directory, keep, depth))
  {
    if list(rows[k].path).Err? {
      PartGoesWrong(list, directory, rows, k, keep, depth);
    } else {
      LoopFails(list, directory, k, keep, depth);
    }
  }

  /** The neighbour it is mistaken for has a file below, which so comes out twice. */
  lemma NeighbourFile(list: Listing, tree: seq<TreeEntry>, segments: seq<GitName>, target: seq<TreeEntry>,
                      keep: string -> bool, depth: nat, i: nat, l: nat) returns (found: FileEntry)
    requires ListsDirectories(list, tree) && Stands(tree, segments, target) && forall path :: keep(path)
    requires i < |target| && target[i].mode == DIR_MODE && RepoFiles.PlainName(target[i].name)
    requires target[i].obj.Tree? && HoldsFile(target[i].obj.entries)
    requires list(PathOf(segments)).Ok? && l < |list(PathOf(segments)).value|
    requires list(PathOf(segments)).value[l].path == PathOf(segments + [target[i].name])
    ensures ComesAcross(list, list(PathOf(segments)).value[l].path, keep, depth, found)
  {
    found := list(PathOf(segments)).value[l];
    if Visit(list, found.path, keep, depth).Ok? {
      found := FileBelowEntry(list, tree, segments, target, keep, depth, i);
    }
  }

  lemma DifferentPaths(segments: seq<GitName>, a: GitName, b: GitName)
    requires a != b
    ensures PathOf(segments + [a]) != PathOf(segments + [b])
  {
    SplitPath(segments + [a]);
    SplitPath(segments + [b]);
    assert (segments + [a])[|segments|] == a && (segments + [b])[|segments|] == b;
  }

  /** Not redundant: either there is no such neighbour, or the neighbour has a file below. */
  lemma OddNeighbour(list: Listing, tree: seq<TreeEntry>, segments: seq<GitName>, target: seq<TreeEntry>, i: nat)
    returns (j: nat)
    requires Serves(list, tree) && Stands(tree, segments, target)
    requires i < |target| && target[i].mode == DIR_MODE && !RepoFiles.PlainName(target[i].name)
    requires !Redundant(target, target[i])
    ensures var path := PathOf(segments + [target[i].name]);
            if j < |target| then
              && target[j].mode == DIR_MODE && RepoFiles.PlainName(target[j].name) && target[j].obj.Tree?
              && HoldsFile(target[j].obj.entries) && list(path) == list(PathOf(segments + [target[j].name]))
            else list(path).Err? || list(path) == list(PathOf(segments))
  {
    var cleaned := RepoFiles.Cleaned(target[i].name);
    OddListing(list, tree, segments, target[i].name);
    FilesBelowEntry(target, i);
    j := |target|;
    if RepoFiles.PlainName(cleaned) {
      var c := RepoFiles.Child(target, cleaned);
      if c.None? || c.value.mode != DIR_MODE || !c.value.obj.Tree? {
        NoSuchDirectory(list, tree, segments, target, cleaned);
      } else {
        j := ChildIndex(target, cleaned);
      }
    }
  }

  /** One oddly named directory that is not redundant is enough. */
  lemma OddGoesWrong(list: Listing, tree: seq<TreeEntry>, segments: seq<GitName>, target: seq<TreeEntry>,
                     keep: string -> bool, depth: nat, i: nat)
    requires Serves(list, tree) && ListsDirectories(list, tree) && Stands(tree, segments, target)
    requires (forall path :: keep(path)) && depth > 0
    requires i < |target| && target[i].mode == DIR_MODE && !RepoFiles.PlainName(target[i].name)
    requires !Redundant(target, target[i])
    ensures GoesWrong(Visit(list, PathOf(segments), keep, depth))
  {
    var k := RowAt(list, tree, segments, target, i);
    var j := OddNeighbour(list, tree, segments, target, i);
    if j < |target| {
      DifferentPaths(segments, target[i].name, target[j].name);
      var l := RowAt(list, tree, segments, target, j);
      var found := NeighbourFile(list, tree, segments, target, keep, depth - 1, j, l);
      assert Twins(list, PathOf(segments), l, k);
      SameVisitTwice(list, PathOf(segments), l, k, keep, depth, found);
    } else {
      UncleanGoesWrong(list, PathOf(segments), list(PathOf(segments)).value, k, keep, depth);
    }
  }

  lemma StandsFurther(tree: seq<TreeEntry>, segments: seq<GitName>, target: seq<TreeEntry>, i: nat)
    requires Stands(tree, segments, target) && i < |target| && target[i].mode == DIR_MODE
    requires RepoFiles.PlainName(target[i].name)
    ensures target[i].obj.Tree? && Stands(tree, segments + [target[i].name], target[i].obj.entries)
  {
    StandsBelow(tree, segments, target, i);
    FilesBelowEntry(target, i);
    if !HoldsFile(target[i].obj.entries) {
      NoFileBelow(target[i].obj.entries);
    }
  }

  /** Some plainly reached directory holds one that is oddly named and not redundant. */
  lemma {:induction false} OddDirectory(tree: seq<TreeEntry>, segments: seq<GitName>, target: seq<TreeEntry>)
    returns (where: seq<GitName>, there: seq<TreeEntry>, i: nat)
    requires Stands(tree, segments, target) && !Walkable(target, target)
    ensures Stands(tree, where, there) && i < |there| && there[i].mode == DIR_MODE
    ensures !RepoFiles.PlainName(there[i].name) && !Redundant(there, there[i])
    decreases target
  {
    i := UnwalkableEntry(target, target);
    if RepoFiles.PlainName(target[i].name) {
      StandsFurther(tree, segments, target, i);
      where, there, i := OddDirectory(tree, segments + [target[i].name], target[i].obj.entries);
    } else {
      where, there := segments, target;
    }
  }

  ghost predicate AlwaysWrong(list: Listing, segments: seq<GitName>, keep: string -> bool) {
    forall depth: nat :: GoesWrong(Visit(list, PathOf(segments), keep, depth))
  }

  lemma BelowGoesWrong(list: Listing, tree: seq<TreeEntry>, segments: seq<GitName>, target: seq<TreeEntry>,
                       keep: string -> bool, depth: nat, i: nat)
    requires ListsDirectories(list, tree) && AllPlain(segments) && RepoFiles.TreeAt(tree, segments) == Ok(target)
    requires i < |target| && target[i].mode == DIR_MODE && depth > 0
    requires GoesWrong(Visit(list, PathOf(segments + [target[i].name]), keep, depth - 1))
    ensures GoesWrong(Visit(list, PathOf(segments), keep, depth))
  {
    var k := RowAt(list, tree, segments, target, i);
    PartGoesWrong(list, PathOf(segments), list(PathOf(segments)).value, k, keep, depth);
  }

  /** What goes wrong below goes wrong at the root. */
  lemma {:induction false} RootGoesWrong(
      list: Listing, tree: seq<TreeEntry>, segments: seq<GitName>, keep: string -> bool)
    requires ListsDirectories(list, tree) && AllPlain(segments) && RepoFiles.TreeAt(tree, segments).Ok?
    requires AlwaysWrong(list, segments, keep)
    ensures AlwaysWrong(list, [], keep)
  {
    if segments != [] {
      var init, last := segments[..|segments| - 1], segments[|segments| - 1];
      assert segments == init + [last];
      var target := RepoFiles.TreeAt(tree, init).value;
      var i := ChildIndex(target, last);
      forall depth: nat ensures GoesWrong(Visit(list, PathOf(init), keep, depth)) {
        if depth > 0 {
          BelowGoesWrong(list, tree, init, target, keep, depth, i);
        }
      }
      RootGoesWrong(list, tree, init, keep);
    }
  }

  lemma UnwalkableGoesWrong(list: Listing, tree: seq<TreeEntry>, keep: string -> bool)
    requires Serves(list, tree) && Stands(tree, [], tree) && (forall path :: keep(path)) && !Walkable(tree, tree)
    ensures AlwaysWrong(list, [], keep)
  {
    ServesDirectories(list, tree);
    var where, there, i := OddDirectory(tree, [], tree);
    forall depth: nat ensures GoesWrong(Visit(list, PathOf(where), keep, depth)) {
      if depth > 0 {
        OddGoesWrong(list, tree, where, there, keep, depth, i);
      }
    }
    RootGoesWrong(list, tree, where, keep);
  }

  /**
   Exactly when the walk is complete, for every tree: some recursion depth makes the unfiltered walk return the
   recursive listing if and only if every directory is plainly named, or is mistaken for a plainly named neighbour
   while neither of the two has a file below.
   */
  lemma WalkIsCompleteIff(list: Listing, tree: seq<TreeEntry>, keep: string -> bool)
    requires Serves(list, tree) && WellFormed(Tree(tree))
    requires forall path :: keep(path)
    ensures (exists depth: nat :: WalksAll(list, tree, keep, depth)) <==> Walkable(tree, tree)
  {
    assert Distinct(tree) && WellFormedEntries(tree);
    if Walkable(tree, tree) {
      var depth := DepthEntries(tree) + 1;
      ServesDirectories(list, tree);
      VisitAt(list, tree, [], tree, keep, depth);
      assert WalksAll(list, tree, keep, depth);
    } else {
      forall depth: nat ensures !WalksAll(list, tree, keep, depth) {
        UnwalkableIsMissed(list, tree, keep, depth);
      }
    }
  }

  lemma UnwalkableIsMissed(list: Listing, tree: seq<TreeEntry>, keep: string -> bool, depth: nat)
    requires Serves(list, tree) && Distinct(tree) && WellFormedEntries(tree) && !Walkable(tree, tree)
    requires forall path :: keep(path)
    ensures !WalksAll(list, tree, keep, depth)
  {
    if FilesBelowPlainNames(tree) {
      UnwalkableGoesWrong(list, tree, keep);
      assert GoesWrong(Visit(list, PathOf([]), keep, depth));
      FlattenDistinct(tree, []);
      DistinctKept(FlattenEntries(tree, []), keep);
    } else {
      ServesPlainPaths(list, tree);
      WalkMissesOddDirectories(list, tree, keep, depth);
    }
  }

  lemma {:induction false} KeptAll(rows: seq<FileEntry>, keep: string -> bool)
    requires forall path :: keep(path)
    ensures Kept(rows, keep) == rows
  {
    if rows != [] {
      KeptAll(rows[..|rows| - 1], keep);
    }
  }

  /** A directory called backslash is listed as the root itself, so the walk never gets past it. */
  lemma {:induction false} BackslashDirectoryNeverEnds(
      list: Listing, tree: seq<TreeEntry>, keep: string -> bool, depth: nat, directory: string)
    requires tree == [TreeEntry("\\", DIR_MODE, Tree([TreeEntry("f", 0x81A4, Blob([], ""))]))]
    requires Serves(list, tree) && (directory == "" || directory == "\\")
    ensures Visit(list, directory, keep, depth) == Err(RecursionLimit)
    decreases depth
  {
    var row := FileEntry("\\", "\\", Dir, None, false);
    BackslashListing(tree, row, directory);
    LoopingListing(list, keep, depth, row, directory);
  }

  lemma BackslashListing(tree: seq<TreeEntry>, row: FileEntry, directory: string)
    requires |tree| == 1 && tree[0].name == "\\" && tree[0].mode == DIR_MODE
    requires row == FileEntry("\\", "\\", Dir, None, false)
    ensures RepoFiles.ListFiles(tree, "") == Ok([row])
    ensures RepoFiles.ListFiles(tree, "\\") == Ok([row])
  {
    assert RepoFiles.RowsOf(tree) == [row] by {
      assert RepoFiles.RowsOf(tree[..0]) == [];
    }
    assert RepoFiles.SortRows([row]) == [row] by {
      assert RepoFiles.SortRows([row][..0]) == [];
    }
    assert RepoFiles.WithPrefixes([row], []) == [row];
    assert Remove("\\", '\\') == "" && Trim("", '/') == "";
  }

  lemma {:induction false} LoopingListing(
      list: Listing, keep: string -> bool, depth: nat, row: FileEntry, directory: string)
    requires row.kind == Dir && list(directory) == Ok([row]) && list(row.path) == Ok([row])
    ensures Visit(list, directory, keep, depth) == Err(RecursionLimit)
    decreases depth
  {
    if depth > 0 {
      LoopingListing(list, keep, depth - 1, row, row.path);
      assert VisitRows(list, [row][..0], keep, depth - 1) == Ok([]);
    }
  }
}
