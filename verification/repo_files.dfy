/** The server's listing of one directory of a repository, addressed by a path string. */
module RepoFiles {
  import opened Prelude
  import opened Text
  import opened GitTree
  import LfsPointer

  datatype Error = NotFound

  // ----- the path argument -----

  /** A name that survives the listing's path check unchanged. */
  predicate PlainName(name: string) {
    name != "" && name != "." && name != ".." && '/' !in name && '\\' !in name
  }

  function ValidatePath(path: string): (r: Result<seq<GitName>, Error>)
    ensures r.Ok? ==> forall s :: s in r.value ==> PlainName(s)
  {
    if StartsWith(path, "/") then Err(NotFound)
    else
      var cleaned := Trim(Remove(path, '\\'), '/');
      if cleaned == "" || cleaned == "." then Ok([])
      else
        var parts := Split(cleaned, '/');
        if exists part :: part in parts && (part == "" || part == "." || part == "..") then Err(NotFound)
        else
          TrimKeepsChars(Remove(path, '\\'), '/', '\\');
          SplitKeepsChars(cleaned, '/', '\\');
          assert forall i :: 0 <= i < |parts| ==> parts[i] in parts;
          Ok(parts)
  }

  lemma {:induction false} SplitKeepsChars(s: string, sep: char, c: char)
    requires c !in s
    ensures forall p :: p in Split(s, sep) ==> c !in p
  {
    if s != "" {
      SplitKeepsChars(s[1..], sep, c);
    }
  }

  lemma TrimKeepsChars(s: string, t: char, c: char)
    requires c !in s
    ensures c !in Trim(s, t)
  {
    TrimLeftIsSuffix(s, t);
    TrimRightIsPrefix(TrimLeft(s, t), t);
  }

  lemma TrimLeftIsSuffix(s: string, t: char)
    ensures forall c :: c in TrimLeft(s, t) ==> c in s
  {
  }

  lemma TrimRightIsPrefix(s: string, t: char)
    ensures forall c :: c in TrimRight(s, t) ==> c in s
  {
  }

  lemma {:induction false} JoinKeepsChars(parts: seq<string>, c: char)
    requires c != '/' && forall p :: p in parts ==> c !in p
    ensures c !in Join(parts, '/')
  {
    if |parts| > 1 {
      JoinKeepsChars(parts[1..], c);
    }
  }

  lemma {:induction false} JoinEnds(parts: seq<string>)
    requires parts != [] && forall p :: p in parts ==> p != "" && '/' !in p
    ensures var s := Join(parts, '/');
            s != "" && s[0] != '/' && s[|s| - 1] != '/' && (|parts| > 1 ==> '/' in s)
  {
    assert parts[0] in parts;
    if |parts| > 1 {
      assert forall p :: p in parts[1..] ==> p in parts;
      JoinEnds(parts[1..]);
    }
  }

  lemma PlainPathIsKept(segments: seq<GitName>, path: string)
    requires segments != [] && (forall s :: s in segments ==> PlainName(s)) && path == PathOf(segments)
    ensures Remove(path, '\\') == path && Trim(path, '/') == path
    ensures path != "" && path[0] != '/' && path != "." && Split(path, '/') == segments
  {
    JoinKeepsChars(segments, '\\');
    JoinEnds(segments);
    SplitPath(segments);
    assert segments[0] in segments;
    if path == "." {
      SplitFirst(path, "", '/');
    }
  }

  /** Reading back a printed path gives the printed segments. */
  lemma ValidatePathInverts(segments: seq<GitName>)
    requires forall s :: s in segments ==> PlainName(s)
    ensures ValidatePath(PathOf(segments)) == Ok(segments)
  {
    var path := PathOf(segments);
    if segments != [] {
      PlainPathIsKept(segments, path);
    }
  }

  /** What is left of a name once the path check has taken the backslashes out. */
  function Cleaned(name: string): string {
    Remove(name, '\\')
  }

  lemma {:induction false} RemoveConcat(a: string, b: string, c: char)
    ensures Remove(a + b, c) == Remove(a, c) + Remove(b, c)
  {
    if a == "" {
      assert a + b == b;
    } else {
      RemoveConcat(a[1..], b, c);
      assert (a + b)[1..] == a[1..] + b && (a + b)[0] == a[0];
    }
  }

  lemma CleanedPath(segments: seq<GitName>, name: GitName)
    requires forall s :: s in segments ==> PlainName(s)
    ensures var path := PathOf(segments + [name]);
            && path != "" && path[0] != '/'
            && Remove(path, '\\') == if segments == [] then Cleaned(name) else PathOf(segments) + "/" + Cleaned(name)
  {
    RowPath(name, segments);
    if segments != [] {
      var front := PathOf(segments);
      PlainPathIsKept(segments, front);
      RemoveConcat(front + "/", name, '\\');
      RemoveConcat(front, "/", '\\');
    }
  }

  lemma TrimOneSlash(s: string)
    requires s != "" && s[0] != '/' && s[|s| - 1] != '/'
    ensures Trim(s + "/", '/') == s
  {
    var t := s + "/";
    assert t[0] == s[0] && TrimLeft(t, '/') == t;
    assert t[..|t| - 1] == s && TrimRight(t, '/') == TrimRight(t[..|t| - 1], '/');
  }

  /** The path check of a name below plain names: it is looked up cleaned, or refused, or stands for nothing. */
  lemma CheckedPath(segments: seq<GitName>, name: GitName)
    requires forall s :: s in segments ==> PlainName(s)
    ensures var r, cleaned := ValidatePath(PathOf(segments + [name])), Cleaned(name);
            if PlainName(cleaned) then r.Ok? && r.value == segments + [cleaned] else r.Err? || r == Ok(segments)
  {
    var path, cleaned := PathOf(segments + [name]), Cleaned(name);
    CleanedPath(segments, name);
    if PlainName(cleaned) {
      RowPath(cleaned, segments);
      CheckedPlain(segments + [cleaned], path);
    } else if segments != [] {
      UnplainEnd(segments, cleaned, path);
    } else {
      UnplainAlone(cleaned, path);
    }
  }

  lemma CheckedPlain(segments: seq<GitName>, path: string)
    requires segments != [] && (forall s :: s in segments ==> PlainName(s))
    requires path != "" && path[0] != '/' && Remove(path, '\\') == PathOf(segments)
    ensures ValidatePath(path) == Ok(segments)
  {
    PlainPathIsKept(segments, PathOf(segments));
  }

  lemma UnplainAlone(cleaned: string, path: string)
    requires cleaned == "" || cleaned == "." || cleaned == ".."
    requires path != "" && path[0] != '/' && Remove(path, '\\') == cleaned
    ensures ValidatePath(path).Err? || ValidatePath(path) == Ok([])
  {
    if cleaned == ".." {
      assert Trim(cleaned, '/') == cleaned;
      SplitFirst(cleaned, "", '/');
      assert cleaned in Split(cleaned, '/');
    } else {
      assert Trim(cleaned, '/') == cleaned;
    }
  }

  lemma UnplainEnd(segments: seq<GitName>, cleaned: string, path: string)
    requires segments != [] && (forall s :: s in segments ==> PlainName(s))
    requires cleaned == "" || cleaned == "." || cleaned == ".."
    requires path != "" && path[0] != '/' && Remove(path, '\\') == PathOf(segments) + "/" + cleaned
    ensures ValidatePath(path).Err? || ValidatePath(path) == Ok(segments)
  {
    var front := PathOf(segments);
    PlainPathIsKept(segments, front);
    JoinEnds(segments);
    if cleaned == "" {
      assert front + "/" + cleaned == front + "/";
      TrimOneSlash(front);
    } else {
      DotsAtEnd(front, cleaned, path);
    }
  }

  lemma DotsAtEnd(front: string, dots: string, path: string)
    requires (dots == "." || dots == "..") && front != "" && front[0] != '/'
    requires path != "" && path[0] != '/' && Remove(path, '\\') == front + "/" + dots
    ensures ValidatePath(path).Err?
  {
    DotsSplit(front, dots);
    DotsRefused(path, front + "/" + dots, dots);
  }

  lemma DotsRefused(path: string, whole: string, dots: string)
    requires path != "" && path[0] != '/' && Remove(path, '\\') == whole && |whole| > 2
    requires whole[0] != '/' && whole[|whole| - 1] == '.' && (dots == "." || dots == "..") && dots in Split(whole, '/')
    ensures ValidatePath(path).Err?
  {
    NoTrim(whole);
  }

  lemma DotsSplit(front: string, dots: string)
    requires dots == "." || dots == ".."
    ensures dots in Split(front + "/" + dots, '/')
  {
    SplitLast(front, dots, '/');
  }

  lemma NoTrim(s: string)
    requires s != "" && s[0] != '/' && s[|s| - 1] != '/'
    ensures Trim(s, '/') == s
  {
  }

  // ----- walking down to the addressed tree -----

  function Child(entries: seq<TreeEntry>, name: string): Option<TreeEntry> {
    if entries == [] then None
    else
      var last := entries[|entries| - 1];
      if last.name == name then Some(last) else Child(entries[..|entries| - 1], name)
  }

  lemma {:induction false} ChildOfEntry(entries: seq<TreeEntry>, i: nat)
    requires Distinct(entries) && i < |entries|
    ensures Child(entries, entries[i].name) == Some(entries[i])
  {
    if i < |entries| - 1 {
      ChildOfEntry(entries[..|entries| - 1], i);
    }
  }

  /** The tree at the end of a segment list, if every step is a directory. */
  function TreeAt(tree: seq<TreeEntry>, segments: seq<string>): Result<seq<TreeEntry>, Error> {
    if segments == [] then Ok(tree)
    else
      match TreeAt(tree, segments[..|segments| - 1])
      case Err(e) => Err(e)
      case Ok(current) =>
        match Child(current, segments[|segments| - 1])
        case None => Err(NotFound)
        case Some(e) => if e.mode == DIR_MODE && e.obj.Tree? then Ok(e.obj.entries) else Err(NotFound)
  }

  method Descend(tree: seq<TreeEntry>, segments: seq<string>) returns (r: Result<seq<TreeEntry>, Error>)
    ensures r == TreeAt(tree, segments)
  {
    var current := tree;
    var failed := false;
    for i := 0 to |segments|
      invariant !failed ==> TreeAt(tree, segments[..i]) == Ok(current)
      invariant failed ==> TreeAt(tree, segments[..i]) == Err(NotFound)
    {
      assert segments[..i + 1][..i] == segments[..i];
      var found := Child(current, segments[i]);
      if found == None || found.value.mode != DIR_MODE || !found.value.obj.Tree? {
        failed := true;
      } else {
        current := found.value.obj.entries;
      }
    }
    assert segments[..|segments|] == segments;
    return if failed then Err(NotFound) else Ok(current);
  }

  // ----- the rows of one level -----

  function RowsOf(entries: seq<TreeEntry>): seq<FileEntry> {
    if entries == [] then []
    else
      RowsOf(entries[..|entries| - 1]) + EntryRows(entries[|entries| - 1])
  }

  function EntryRows(e: TreeEntry): seq<FileEntry> {
    if e.mode == DIR_MODE then [FileEntry(e.name, e.name, Dir, None, false)]
    else if IsRegularFile(e) then [FileRow(e, e.name)]
    else []
  }

  /** The sort key: directories first, then by name. */
  predicate RowLeq(a: FileEntry, b: FileEntry) {
    if a.kind == b.kind then LexLeq(a.name, b.name) else a.kind == Dir
  }

  ghost predicate SortedRows(rows: seq<FileEntry>) {
    forall i, j :: 0 <= i < j < |rows| ==> RowLeq(rows[i], rows[j])
  }

  function Insert(row: FileEntry, rows: seq<FileEntry>): (r: seq<FileEntry>)
    ensures multiset(r) == multiset(rows) + multiset{row}
  {
    if rows == [] || RowLeq(rows[|rows| - 1], row) then rows + [row]
    else
      var init, last := rows[..|rows| - 1], rows[|rows| - 1];
      assert rows == init + [last];
      Insert(row, init) + [last]
  }

  function SortRows(rows: seq<FileEntry>): (r: seq<FileEntry>)
    ensures multiset(r) == multiset(rows)
  {
    if rows == [] then []
    else
      var init, last := rows[..|rows| - 1], rows[|rows| - 1];
      assert rows == init + [last];
      Insert(last, SortRows(init))
  }

  lemma {:induction false} InsertSorted(row: FileEntry, rows: seq<FileEntry>)
    requires SortedRows(rows)
    ensures SortedRows(Insert(row, rows))
  {
    if rows != [] {
      var init, last := rows[..|rows| - 1], rows[|rows| - 1];
      if RowLeq(last, row) {
        forall i | 0 <= i < |rows| ensures RowLeq(rows[i], row) {
          if i < |rows| - 1 && rows[i].kind == last.kind == row.kind {
            LexTransitive(rows[i].name, last.name, row.name);
          }
        }
      } else {
        InsertSorted(row, init);
        forall i | 0 <= i < |Insert(row, init)| ensures RowLeq(Insert(row, init)[i], last) {
          assert Insert(row, init)[i] in multiset(init) + multiset{row};
          LexTotal(row.name, last.name);
        }
      }
    }
  }

  lemma {:induction false} SortRowsSorted(rows: seq<FileEntry>)
    ensures SortedRows(SortRows(rows))
  {
    if rows != [] {
      SortRowsSorted(rows[..|rows| - 1]);
      InsertSorted(rows[|rows| - 1], SortRows(rows[..|rows| - 1]));
    }
  }

  method ListOneLevel(entries: seq<TreeEntry>) returns (rows: seq<FileEntry>)
    ensures rows == SortRows(RowsOf(entries))
    ensures SortedRows(rows) && multiset(rows) == multiset(RowsOf(entries))
  {
    rows := [];
    for i := 0 to |entries|
      invariant rows == RowsOf(entries[..i])
    {
      var entry := entries[i];
      assert entries[..i + 1][..i] == entries[..i];
      if entry.mode == DIR_MODE {
        rows := rows + [FileEntry(entry.name, entry.name, Dir, None, false)];
        continue;
      }
      if entry.mode == SYMLINK_MODE || entry.mode == SUBMODULE_MODE {
        continue;
      }
      if entry.obj.Blob? {
        var size, isLfs := |entry.obj.data|, false;
        var shown: Option<int> := Some(size);
        if size < LfsPointer.MAX_POINTER_BYTES {
          var pointerSize := LfsPointer.ReadPointerSize(entry.obj.data, entry.obj.text);
          if pointerSize.Some? {
            shown, isLfs := pointerSize, true;
          }
        }
        rows := rows + [FileEntry(entry.name, entry.name, File, shown, isLfs)];
      }
    }
    assert entries[..|entries|] == entries;
    rows := SortRows(rows);
    SortRowsSorted(RowsOf(entries));
  }

  // ----- the endpoint -----

  /** A row's path inside the repository, given the directory it was listed in. */
  function WithPrefix(row: FileEntry, segments: seq<GitName>): FileEntry {
    if segments == [] then row else row.(path := PathOf(segments) + "/" + row.name)
  }

  function WithPrefixes(rows: seq<FileEntry>, segments: seq<GitName>): (r: seq<FileEntry>)
    ensures |r| == |rows| && forall i :: 0 <= i < |r| ==> r[i] == WithPrefix(rows[i], segments)
  {
    if rows == [] then []
    else WithPrefixes(rows[..|rows| - 1], segments) + [WithPrefix(rows[|rows| - 1], segments)]
  }

  function ListFiles(tree: seq<TreeEntry>, path: string): Result<seq<FileEntry>, Error> {
    match ValidatePath(path)
    case Err(e) => Err(e)
    case Ok(segments) =>
      match TreeAt(tree, segments)
      case Err(e) => Err(e)
      case Ok(target) => Ok(WithPrefixes(SortRows(RowsOf(target)), segments))
  }

  method ListFilesSync(tree: seq<TreeEntry>, path: string) returns (r: Result<seq<FileEntry>, Error>)
    ensures r == ListFiles(tree, path)
  {
    var checked := ValidatePath(path);
    if checked.Err? {
      return Err(checked.error);
    }
    var segments := checked.value;
    var target := Descend(tree, segments);
    if target.Err? {
      return Err(target.error);
    }
    var rows := ListOneLevel(target.value);
    rows := PrefixRows(rows, segments);
    return Ok(rows);
  }

  method PrefixRows(rows: seq<FileEntry>, segments: seq<GitName>) returns (r: seq<FileEntry>)
    ensures r == WithPrefixes(rows, segments)
  {
    if segments == [] {
      assert rows == WithPrefixes(rows, segments);
      return rows;
    }
    r := [];
    for i := 0 to |rows|
      invariant |r| == i && forall j :: 0 <= j < i ==> r[j] == WithPrefix(rows[j], segments)
    {
      r := r + [rows[i].(path := PathOf(segments) + "/" + rows[i].name)];
    }
    assert r == WithPrefixes(rows, segments);
  }

  /** A listed pointer shows the size of the object it stands for, flagged as such. */
  lemma PointerIsListedWithRealSize(entries: seq<TreeEntry>, i: nat, oid: Oid, size: nat)
    requires i < |entries| && IsRegularFile(entries[i])
    requires entries[i].obj == Blob(AsciiBytes(LfsPointer.PointerText(oid, size)), LfsPointer.PointerText(oid, size))
    requires |LfsPointer.PointerText(oid, size)| < LfsPointer.MAX_POINTER_BYTES
    ensures FileEntry(entries[i].name, entries[i].name, File, Some(size), true) in SortRows(RowsOf(entries))
  {
    LfsPointer.PointerRoundTrip(oid, size);
    RowOfEntry(entries, i);
    assert FileRow(entries[i], entries[i].name) in multiset(SortRows(RowsOf(entries)));
  }

  /** Any other file shows the length of its own blob. */
  lemma OtherFileIsListed(entries: seq<TreeEntry>, i: nat)
    requires i < |entries| && IsRegularFile(entries[i])
    requires |entries[i].obj.data| >= 4096
             || LfsPointer.PointerSize(entries[i].obj.data, entries[i].obj.text) == None
    ensures FileEntry(entries[i].name, entries[i].name, File, Some(|entries[i].obj.data|), false)
            in SortRows(RowsOf(entries))
  {
    RowOfEntry(entries, i);
    assert FileRow(entries[i], entries[i].name) in multiset(SortRows(RowsOf(entries)));
  }

  lemma {:induction false} RowOfEntry(entries: seq<TreeEntry>, i: nat)
    requires i < |entries| && IsRegularFile(entries[i])
    ensures FileRow(entries[i], entries[i].name) in RowsOf(entries)
  {
    if i < |entries| - 1 {
      RowOfEntry(entries[..|entries| - 1], i);
    }
  }
}
