/** Translating the `containerEdits` of resolved devices into the fields of a container create body. */
module CdiEdits {
  import opened Prelude
  import opened Text
  import opened Dedup
  import opened Cdi
  import opened CdiHooks

  datatype Node = Node(path: string, attributes: map<string, string>)

  datatype Edits = Edits(nodes: seq<Node>, mounts: seq<Mount>, env: map<string, string>, gids: seq<string>,
                         notes: seq<string>, folders: seq<string>)

  const NO_EDITS := Edits([], [], map[], [], [], [])

  const KNOWN_KEYS := {"deviceNodes", "mounts", "env", "additionalGids", "hooks"}

  // ----- one block -----

  function NodesIn(part: Part): seq<Node> {
    var nodes := part.block.nodes;
    seq(|nodes|, i requires 0 <= i < |nodes| => Node(nodes[i].path, nodes[i].attributes))
  }

  function HostMounts(nodes: seq<NodeEntry>): seq<Mount> {
    if nodes == [] then []
    else
      var before, last := HostMounts(nodes[..|nodes| - 1]), nodes[|nodes| - 1];
      if last.hostPath == "" then before
      else before + [Mount(last.hostPath, last.path, Some("bind"), Some(["bind"]))]
  }

  /** The nodes of a block, one for one: path and attributes as the spec has them. */
  lemma NodesOneForOne(part: Part)
    ensures |NodesIn(part)| == |part.block.nodes|
    ensures forall i :: 0 <= i < |part.block.nodes| ==>
              && NodesIn(part)[i].path == part.block.nodes[i].path
              && NodesIn(part)[i].attributes == part.block.nodes[i].attributes
  {
  }

  /** One bind mount, from the host path to the node, for every node the host provides, in their order. */
  lemma {:induction false} HostMountsOneByOne(before: seq<NodeEntry>, node: NodeEntry)
    ensures HostMounts([]) == []
    ensures HostMounts(before + [node]) == HostMounts(before) +
              if node.hostPath != "" then [Mount(node.hostPath, node.path, Some("bind"), Some(["bind"]))] else []
  {
    assert (before + [node])[..|before|] == before;
  }

  /** The mounts a block asks for itself: those of its device nodes, then those it lists. */
  function MountsIn(part: Part): seq<Mount> {
    HostMounts(part.block.nodes) + part.block.mounts
  }

  /** The nodes' own mounts stand in front of the listed ones, so the hooks look among them first. */
  lemma NodeMountsFirst(part: Part)
    ensures HostMounts(part.block.nodes) <= MountsIn(part)
    ensures MountsIn(part)[|HostMounts(part.block.nodes)|..] == part.block.mounts
  {
  }

  /** KEY=VALUE, cut at the first `=`: the key holds none, the value may. */
  function KeyValue(entry: string): (r: Option<(string, string)>)
    ensures r.None? <==> '=' !in entry
    ensures r.Some? ==> '=' !in r.value.0 && entry == r.value.0 + "=" + r.value.1
  {
    CutFirst(entry, '=')
  }

  function Gid(entry: GidEntry): Option<string> {
    match entry
    case Number(n) => Some(if n >= 0 then Digits(n) else "-" + Digits(-n))
    case Written(text) =>
      var digits := Strip(text);
      if AllDigits(digits) then
        ParseDigitString(digits);
        Some(Digits(ParseUnsigned(digits).value))
      else None
    case OtherGid => None
  }

  /** A number comes out as its numeral. */
  lemma {:induction false} GidOfNumber(n: int)
    ensures Gid(Number(n)).Some? && ParseInt(Gid(Number(n)).value) == Some(n)
  {
    var text := Gid(Number(n)).value;
    if n >= 0 {
      ParseIntDigits(n);
      assert text == Digits(n);
    } else {
      NegativeNumeral(n);
      assert text == "-" + Digits(-n);
    }
  }

  lemma {:induction false} NegativeNumeral(n: int)
    requires n < 0
    ensures ParseInt("-" + Digits(-n)) == Some(n)
  {
    ParseUnsignedDigits(-n);
    SignedDigits(Digits(-n));
    ParseIntNegative("-" + Digits(-n), -n);
  }

  lemma SignedDigits(digits: string)
    requires AllDigits(digits)
    ensures Stripped("-" + digits) && ("-" + digits)[1..] == digits
  {
    assert IsDigit(digits[|digits| - 1]);
  }

  /** Text counts when it is digits, and then as the number they spell. */
  lemma {:induction false} GidOfText(text: string)
    ensures Gid(Written(text)).Some? <==> AllDigits(Strip(text))
    ensures AllDigits(Strip(text)) ==>
              exists n: nat :: ParseUnsigned(Strip(text)) == Some(n) && Gid(Written(text)) == Gid(Number(n))
    ensures Gid(OtherGid) == None
  {
    if AllDigits(Strip(text)) {
      ParseDigitString(Strip(text));
      var n: nat := ParseUnsigned(Strip(text)).value;
      assert Gid(Written(text)) == Gid(Number(n));
    }
  }

  predicate AllPairs(env: seq<string>) {
    forall e :: e in env ==> KeyValue(e).Some?
  }

  predicate AllGids(gids: seq<GidEntry>) {
    forall g :: g in gids ==> Gid(g).Some?
  }

  predicate Translatable(block: EditBlock) {
    block.keys <= KNOWN_KEYS && AllPairs(block.env) && AllGids(block.gids)
  }

  /** What a block may ask for: these keys, variables with a value, and group ids that are numbers. */
  lemma TranslatableIff(block: EditBlock)
    ensures Translatable(block) <==>
              && (forall k :: k in block.keys ==> k in ["deviceNodes", "mounts", "env", "additionalGids", "hooks"])
              && (forall e :: e in block.env ==> '=' in e)
              && (forall g :: g in block.gids ==> g.Number? || (g.Written? && AllDigits(Strip(g.text))))
  {
    forall g | g in block.gids ensures Gid(g).Some? <==> g.Number? || (g.Written? && AllDigits(Strip(g.text))) {}
  }

  function PairsOf(env: seq<string>): seq<(string, string)>
    requires AllPairs(env)
  {
    seq(|env|, i requires 0 <= i < |env| => KeyValue(env[i]).value)
  }

  function GidsOf(gids: seq<GidEntry>): seq<string>
    requires AllGids(gids)
  {
    Collected(gids, Gid)
  }

  /** What a block adds through its hooks; whatever is not a list ends in the note. */
  function HookStep(hooks: Option<Hooks>, p: Progress, device: string): (Progress, seq<string>) {
    match hooks
    case None => (p, [])
    case Some(NotAList) => (p, [NoteText(device, UNNAMED)])
    case Some(Hooks(list)) =>
      var r := AddHooks(p, list);
      (r, NotesFor(device, r.dropped))
  }

  /** One block, for the device it is read for. */
  datatype Part = Part(device: string, block: EditBlock)

  function AddPart(acc: Edits, part: Part): Edits
    requires Translatable(part.block)
  {
    var block := part.block;
    var (p, notes) := HookStep(block.hooks, Progress(acc.mounts + MountsIn(part), acc.folders, []), part.device);
    Edits(acc.nodes + NodesIn(part), p.mounts, acc.env + FilledMap(PairsOf(block.env)),
          FirstOccurrences(acc.gids + GidsOf(block.gids)), acc.notes + notes, p.folders)
  }

  /** The collections the resolver fills while it goes through the devices. */
  class Collections {
    var nodes: seq<Node>
    var mounts: seq<Mount>
    var env: map<string, string>
    var gids: seq<string>
    var notes: seq<string>
    var folders: seq<string>

    constructor ()
      ensures Contents() == NO_EDITS
    {
      nodes, mounts, env, gids, notes, folders := [], [], map[], [], [], [];
    }

    function Contents(): Edits
      reads this
    {
      Edits(nodes, mounts, env, gids, notes, folders)
    }

    ghost predicate Valid()
      reads this
    {
      NoDuplicates(gids)
    }

    method TranslateEdits(part: Part) returns (ok: bool)
      requires Valid()
      modifies this
      ensures Valid() && (ok <==> Translatable(part.block))
      ensures ok ==> Contents() == AddPart(old(Contents()), part)
    {
      var block := part.block;
      if !(block.keys <= KNOWN_KEYS) {
        return false;
      }
      AddNodes(part);
      Associative(old(mounts), HostMounts(block.nodes), block.mounts);
      mounts := mounts + block.mounts;
      ok := AddEnv(block.env);
      if !ok {
        return;
      }
      ok := AddGids(block.gids);
      if !ok {
        return;
      }
      if block.hooks.Some? {
        TranslateHooks(block.hooks.value, part.device);
      }
    }

    /** Delivers the effects a create body can express and notes the rest; nothing here fails. */
    method TranslateHooks(hooks: Hooks, device: string)
      modifies `mounts, `folders, `notes
      ensures var (p, added) := HookStep(Some(hooks), Progress(old(mounts), old(folders), []), device);
              mounts == p.mounts && folders == p.folders && notes == old(notes) + added
    {
      if hooks.NotAList? {
        notes := notes + [NoteText(device, UNNAMED)];
        return;
      }
      var dropped: seq<string> := [];
      var list := hooks.list;
      ghost var start := Progress(mounts, folders, []);
      for i := 0 to |list|
        invariant AddHooks(start, list[..i]) == Progress(mounts, folders, dropped) && notes == old(notes)
      {
        assert list[..i + 1][..i] == list[..i];
        var name := DeliverHook(list[i]);
        dropped := dropped + name;
      }
      assert list[..|list|] == list;
      if dropped != [] {
        notes := notes + [NoteText(device, CommaJoined(FirstOccurrences(dropped)))];
      }
    }

    /** One hook; what comes back is its name when something of it is lost. */
    method DeliverHook(h: Hook) returns (dropped: seq<string>)
      modifies `mounts, `folders
      ensures mounts == old(mounts) + MountsFor(LinksOf(h), old(mounts))
      ensures folders == old(folders) + FoldersOf(h) && dropped == DroppedOf(h)
    {
      dropped := [];
      match EffectOf(h) {
        case Links(pairs) =>
          var translated := MountsFor(pairs, mounts);
          MountsForGood(pairs, mounts);
          mounts := mounts + translated;
          if |translated| != |pairs| {
            dropped := [CREATE_SYMLINKS];
          }
        case Folders(values) =>
          folders := folders + values;
        case Nothing =>
        case Unknown(name) =>
          dropped := [name];
      }
    }

    method AddNodes(part: Part)
      modifies `nodes, `mounts
      ensures nodes == old(nodes) + NodesIn(part) && mounts == old(mounts) + HostMounts(part.block.nodes)
    {
      var entries := part.block.nodes;
      for i := 0 to |entries|
        invariant nodes == old(nodes) + NodesIn(part)[..i] && mounts == old(mounts) + HostMounts(entries[..i])
      {
        assert entries[..i + 1][..i] == entries[..i];
        nodes := nodes + [Node(entries[i].path, entries[i].attributes)];
        if entries[i].hostPath != "" {
          mounts := mounts + [Mount(entries[i].hostPath, entries[i].path, Some("bind"), Some(["bind"]))];
        }
      }
      assert entries[..|entries|] == entries;
    }

    /** Later entries overwrite earlier ones; stops at the first that is not KEY=VALUE. */
    method AddEnv(entries: seq<string>) returns (ok: bool)
      modifies `env
      ensures ok <==> AllPairs(entries)
      ensures ok ==> env == old(env) + FilledMap(PairsOf(entries))
    {
      ghost var pairs: seq<(string, string)> := [];
      for i := 0 to |entries|
        invariant |pairs| == i && env == old(env) + FilledMap(pairs)
        invariant forall j :: 0 <= j < i ==> KeyValue(entries[j]) == Some(pairs[j])
      {
        var pair := KeyValue(entries[i]);
        if pair.None? {
          assert entries[i] in entries;
          return false;
        }
        FilledMapSnoc(old(env), pairs, pair.value);
        env := env[pair.value.0 := pair.value.1];
        pairs := pairs + [pair.value];
      }
      AllPairsRead(entries, pairs);
      ok := true;
    }

    /** Every group id once; stops at the first entry that is not a number. */
    method AddGids(entries: seq<GidEntry>) returns (ok: bool)
      requires Valid()
      modifies `gids
      ensures Valid() && (ok <==> AllGids(entries))
      ensures ok ==> gids == FirstOccurrences(old(gids) + GidsOf(entries))
    {
      ghost var all := gids;
      FirstOccurrencesOfDistinct(all);
      for i := 0 to |entries|
        invariant gids == FirstOccurrences(all) && Appended(old(gids), entries[..i], all)
      {
        var gid := Gid(entries[i]);
        if gid.None? {
          assert entries[i] in entries;
          FirstOccurrencesExact(all);
          return false;
        }
        FirstOccurrencesSnoc(all, gid.value);
        AppendedSnoc(old(gids), entries, i, all, gid.value);
        if gid.value !in gids {
          gids := gids + [gid.value];
        }
        all := all + [gid.value];
      }
      assert entries[..|entries|] == entries;
      FirstOccurrencesExact(all);
      ok := true;
    }
  }

  lemma FilledMapSnoc(before: map<string, string>, pairs: seq<(string, string)>, pair: (string, string))
    ensures before + FilledMap(pairs + [pair]) == (before + FilledMap(pairs))[pair.0 := pair.1]
  {
    assert (pairs + [pair])[..|pairs|] == pairs;
  }

  lemma AllPairsRead(entries: seq<string>, pairs: seq<(string, string)>)
    requires |pairs| == |entries| && forall j :: 0 <= j < |entries| ==> KeyValue(entries[j]) == Some(pairs[j])
    ensures AllPairs(entries) && PairsOf(entries) == pairs
  {
  }

  ghost predicate Appended(before: seq<string>, entries: seq<GidEntry>, all: seq<string>) {
    AllGids(entries) && all == before + GidsOf(entries)
  }

  lemma AppendedSnoc(before: seq<string>, entries: seq<GidEntry>, i: nat, all: seq<string>, gid: string)
    requires i < |entries| && Appended(before, entries[..i], all) && Gid(entries[i]) == Some(gid)
    ensures Appended(before, entries[..i + 1], all + [gid])
  {
    var longer := entries[..i + 1];
    assert longer == entries[..i] + [entries[i]];
    CollectedSnoc(entries[..i], entries[i], Gid, gid);
    Associative(before, GidsOf(entries[..i]), [gid]);
  }

  lemma FirstOccurrencesSnoc<T>(s: seq<T>, x: T)
    ensures var firsts := FirstOccurrences(s);
            FirstOccurrences(s + [x]) == (if x in firsts then firsts else firsts + [x])
  {
    FirstOccurrencesExact(s);
    assert (s + [x])[..|s|] == s;
  }

  // ----- all devices -----

  /** What a device contributes: the spec-wide block, then its own. */
  function PartsOf(m: Match): seq<Part> {
    (if m.spec.edits.Some? then [Part(m.name, m.spec.edits.value)] else [])
    + (if m.device.edits.Some? then [Part(m.name, m.device.edits.value)] else [])
  }

  /** The spec-wide block goes first, so what the device sets itself wins. */
  lemma OwnBlockLast(m: Match)
    ensures |PartsOf(m)| == (if m.spec.edits.Some? then 1 else 0) + (if m.device.edits.Some? then 1 else 0)
    ensures forall p :: p in PartsOf(m) ==> p.device == m.name
    ensures m.spec.edits.Some? ==> PartsOf(m)[0].block == m.spec.edits.value
    ensures m.device.edits.Some? ==> PartsOf(m)[|PartsOf(m)| - 1].block == m.device.edits.value
  {
  }

  predicate AllTranslatable(parts: seq<Part>) {
    forall p :: p in parts ==> Translatable(p.block)
  }

  function AddParts(acc: Edits, parts: seq<Part>): Edits
    requires AllTranslatable(parts)
  {
    if parts == [] then acc
    else AddPart(AddParts(acc, parts[..|parts| - 1]), parts[|parts| - 1])
  }

  function AddDevice(acc: Edits, m: Match): Result<Edits, Failure> {
    if AllTranslatable(PartsOf(m)) then Ok(AddParts(acc, PartsOf(m))) else Err(Untranslatable(m.name))
  }

  function AddFound(acc: Edits, found: Result<Match, Failure>): Result<Edits, Failure> {
    match found
    case Err(e) => Err(e)
    case Ok(m) => AddDevice(acc, m)
  }

  function EditsOf(identifiers: seq<string>, find: string -> Result<Match, Failure>): Result<Edits, Failure> {
    if identifiers == [] then Ok(NO_EDITS)
    else
      match EditsOf(identifiers[..|identifiers| - 1], find)
      case Err(e) => Err(e)
      case Ok(acc) => AddFound(acc, find(identifiers[|identifiers| - 1]))
  }

  const LIBRARY_PATH := "LD_LIBRARY_PATH"

  function NonEmpty(parts: seq<string>): seq<string> {
    if parts == [] then []
    else
      var before, last := NonEmpty(parts[..|parts| - 1]), parts[|parts| - 1];
      if last == "" then before else before + [last]
  }

  /** The collected library folders go in front of the search path, each once. */
  function WithFolders(edits: Edits): Edits {
    if edits.folders == [] then edits
    else
      var existing := if LIBRARY_PATH in edits.env then NonEmpty(Split(edits.env[LIBRARY_PATH], ':')) else [];
      edits.(env := edits.env[LIBRARY_PATH := Join(FirstOccurrences(edits.folders + existing), ':')])
  }

  function ResolvedEdits(specs: seq<Spec>, identifiers: seq<string>, kind: string): Result<Edits, Failure> {
    var edits := EditsOf(identifiers, Finder(specs, kind));
    if edits.Ok? then Ok(WithFolders(edits.value)) else edits
  }

  method ResolveEdits(specs: seq<Spec>, identifiers: seq<string>, kind: string) returns (r: Result<Edits, Failure>)
    ensures r == ResolvedEdits(specs, identifiers, kind)
  {
    var out := new Collections();
    ghost var find := Finder(specs, kind);
    var cache: map<string, Index> := map[];
    for i := 0 to |identifiers|
      invariant fresh(out) && out.Valid() && CacheOk(specs, cache)
      invariant EditsOf(identifiers[..i], find) == Ok(out.Contents())
    {
      var m;
      m, cache := MatchDevice(specs, identifiers[i], kind, cache);
      EditsStep(identifiers, find, i, out.Contents());
      if m.Err? {
        EditsFirstFailure(identifiers, find, i + 1, m.error);
        return Err(m.error);
      }
      var ok := AddMatch(out, m.value);
      if !ok {
        EditsFirstFailure(identifiers, find, i + 1, Untranslatable(m.value.name));
        return Err(Untranslatable(m.value.name));
      }
    }
    assert identifiers[..|identifiers|] == identifiers;
    r := Ok(WithFolders(out.Contents()));
  }

  method AddMatch(out: Collections, m: Match) returns (ok: bool)
    requires out.Valid()
    modifies out
    ensures out.Valid() && (ok <==> AllTranslatable(PartsOf(m)))
    ensures ok ==> out.Contents() == AddParts(old(out.Contents()), PartsOf(m))
  {
    var parts := PartsOf(m);
    for i := 0 to |parts|
      invariant out.Valid() && AllTranslatable(parts[..i])
      invariant out.Contents() == AddParts(old(out.Contents()), parts[..i])
    {
      assert parts[..i + 1] == parts[..i] + [parts[i]] && parts[..i + 1][..i] == parts[..i];
      ok := out.TranslateEdits(parts[i]);
      if !ok {
        assert parts[i] in parts;
        return;
      }
    }
    assert parts[..|parts|] == parts;
    ok := true;
  }

  lemma EditsStep(identifiers: seq<string>, find: string -> Result<Match, Failure>, i: nat, acc: Edits)
    requires i < |identifiers| && EditsOf(identifiers[..i], find) == Ok(acc)
    ensures EditsOf(identifiers[..i + 1], find) == AddFound(acc, find(identifiers[i]))
  {
    assert identifiers[..i + 1][..i] == identifiers[..i];
  }

  lemma {:induction false} EditsFirstFailure(identifiers: seq<string>, find: string -> Result<Match, Failure>, i: nat,
                                             e: Failure)
    requires i <= |identifiers| && EditsOf(identifiers[..i], find) == Err(e)
    ensures EditsOf(identifiers, find) == Err(e)
  {
    if i < |identifiers| {
      var init := identifiers[..|identifiers| - 1];
      assert init[..i] == identifiers[..i];
      EditsFirstFailure(init, find, i, e);
    } else {
      assert identifiers[..i] == identifiers;
    }
  }

  // ----- what the result is made of -----

  function PairsIn(part: Part): seq<(string, string)> {
    if AllPairs(part.block.env) then PairsOf(part.block.env) else []
  }

  function GidsIn(part: Part): seq<string> {
    if AllGids(part.block.gids) then GidsOf(part.block.gids) else []
  }

  function HooksIn(part: Part): seq<Hook> {
    match part.block.hooks case Some(Hooks(list)) => list case _ => []
  }

  function FoldersIn(part: Part): seq<string> {
    Gather(HooksIn(part), FoldersOf)
  }

  function LinksIn(part: Part): seq<string> {
    Gather(HooksIn(part), LinksOf)
  }

  function NotesIn(part: Part): seq<string> {
    match part.block.hooks
    case None => []
    case Some(NotAList) => [NoteText(part.device, UNNAMED)]
    case Some(Hooks(list)) => NotesFor(part.device, Dropped(list))
  }

  /** Where the mounts of a part land: its own in their places, then one per link. */
  function PlacesIn(part: Part): seq<string> {
    Destinations(MountsIn(part)) + LinkNames(LinksIn(part))
  }

  /** Every mount is one a block asked for, or made for a link from the mounts in front of it. */
  ghost predicate Accounted(mounts: seq<Mount>, parts: seq<Part>) {
    forall i :: 0 <= i < |mounts| ==>
      mounts[i] in Gather(parts, MountsIn) || MadeFrom(SymlinkMount, Gather(parts, LinksIn), mounts, i)
  }

  /** All of the first list occurs in the second, in the same order. */
  predicate Subsequence<T(==)>(a: seq<T>, b: seq<T>) {
    if a == [] then true
    else if b == [] then false
    else if a[|a| - 1] == b[|b| - 1] then Subsequence(a[..|a| - 1], b[..|b| - 1])
    else Subsequence(a, b[..|b| - 1])
  }

  lemma {:induction false} SubsequenceGrows<T>(a: seq<T>, b: seq<T>, more: seq<T>)
    requires Subsequence(a, b)
    ensures Subsequence(a, b + more)
  {
    if more == [] {
      assert b + more == b;
    } else {
      var init, last := more[..|more| - 1], more[|more| - 1];
      SubsequenceGrows(a, b, init);
      AppendLast(b, more);
      SubsequenceSnoc(a, b + init, last);
    }
  }

  lemma SubsequenceSnoc<T>(a: seq<T>, b: seq<T>, last: T)
    requires Subsequence(a, b)
    ensures Subsequence(a, b + [last])
    decreases |b|, 1
  {
    assert (b + [last])[..|b|] == b;
    if a != [] && a[|a| - 1] == last {
      SubsequenceShrinks(a, b);
    }
  }

  lemma {:induction false} SubsequenceShrinks<T>(a: seq<T>, b: seq<T>)
    requires a != [] && Subsequence(a, b)
    ensures Subsequence(a[..|a| - 1], b)
    decreases |b|, 0
  {
    var init := b[..|b| - 1];
    if a[|a| - 1] == b[|b| - 1] {
      SubsequenceSnoc(a[..|a| - 1], init, b[|b| - 1]);
    } else {
      SubsequenceShrinks(a, init);
      SubsequenceSnoc(a[..|a| - 1], init, b[|b| - 1]);
    }
    assert init + [b[|b| - 1]] == b;
  }

  lemma {:induction false} SubsequenceBoth<T>(a: seq<T>, b: seq<T>, more: seq<T>)
    requires Subsequence(a, b)
    ensures Subsequence(a + more, b + more)
  {
    if more == [] {
      assert a + more == a && b + more == b;
    } else {
      SubsequenceBoth(a, b, more[..|more| - 1]);
      AppendLast(a, more);
      AppendLast(b, more);
    }
  }

  /**
   Device nodes in order, the last value of every variable, every group id once, folders and notes in order. The mounts
   the blocks ask for are all there, in order and unchanged; between them stands one for every link, and nothing else.
   */
  ghost predicate Merges(edits: Edits, parts: seq<Part>) {
    && AllTranslatable(parts)
    && edits.nodes == Gather(parts, NodesIn)
    && edits.env == FilledMap(Gather(parts, PairsIn))
    && edits.gids == FirstOccurrences(Gather(parts, GidsIn))
    && edits.folders == Gather(parts, FoldersIn)
    && edits.notes == Gather(parts, NotesIn)
    && Destinations(edits.mounts) == Gather(parts, PlacesIn)
    && Subsequence(Gather(parts, MountsIn), edits.mounts)
    && Accounted(edits.mounts, parts)
  }

  lemma OwnMountsSurvive<T>(all: seq<T>, mounts: seq<T>, own: seq<T>, r: seq<T>)
    requires Subsequence(all, mounts) && mounts + own <= r
    ensures Subsequence(all + own, r)
  {
    var start := mounts + own;
    SubsequenceBoth(all, mounts, own);
    SubsequenceGrows(all + own, start, r[|start|..]);
    assert r == start + r[|start|..];
  }

  lemma AccountedMerge<P(!new), M>(make: (P, seq<M>) -> Option<M>, all: seq<M>, sources: seq<P>, mounts: seq<M>,
                                   own: seq<M>, links: seq<P>, r: seq<M>, i: nat)
    requires mounts + own <= r && i < |r|
    requires i < |mounts| ==> mounts[i] in all || MadeFrom(make, sources, mounts, i)
    requires |mounts + own| <= i ==> MadeFrom(make, links, r, i)
    ensures r[i] in all + own || MadeFrom(make, sources + links, r, i)
  {
    if i < |mounts| {
      assert r == mounts + r[|mounts|..];
      if MadeFrom(make, sources, mounts, i) {
        StillMade(make, [], sources, links, mounts, r[|mounts|..], i);
        assert [] + sources + links == sources + links;
      }
    } else if i < |mounts + own| {
      assert r[i] == (mounts + own)[i] == own[i - |mounts|];
    } else {
      StillMade(make, sources, links, [], r, [], i);
      assert sources + links + [] == sources + links && r + [] == r;
    }
  }

  /** Own mounts and links of one more part, on top of those of all parts before. */
  lemma MountsMerge<P(!new), M, D>(make: (P, seq<M>) -> Option<M>, mounts: seq<M>, allOwn: seq<M>, allLinks: seq<P>,
                                   own: seq<M>, links: seq<P>, r: seq<M>, place: M -> D, named: P -> D)
    requires Subsequence(allOwn, mounts) && mounts + own <= r
    requires forall i :: 0 <= i < |mounts| ==> mounts[i] in allOwn || MadeFrom(make, allLinks, mounts, i)
    requires Mapped(r, place) == Mapped(mounts + own, place) + Mapped(links, named)
    requires forall i :: |mounts + own| <= i < |r| ==> MadeFrom(make, links, r, i)
    ensures Mapped(r, place) == Mapped(mounts, place) + (Mapped(own, place) + Mapped(links, named))
    ensures Subsequence(allOwn + own, r)
    ensures forall i :: 0 <= i < |r| ==> r[i] in allOwn + own || MadeFrom(make, allLinks + links, r, i)
  {
    MappedAppend(mounts, own, place);
    Associative(Mapped(mounts, place), Mapped(own, place), Mapped(links, named));
    OwnMountsSurvive(allOwn, mounts, own, r);
    forall i | 0 <= i < |r| ensures r[i] in allOwn + own || MadeFrom(make, allLinks + links, r, i) {
      AccountedMerge(make, allOwn, allLinks, mounts, own, links, r, i);
    }
  }

  /** What the hooks of a part add, piece by piece. */
  lemma HookStepExact(p: Progress, part: Part)
    requires p.dropped == []
    ensures var (r, notes) := HookStep(part.block.hooks, p, part.device);
            && r.folders == p.folders + FoldersIn(part) && notes == NotesIn(part)
            && r.mounts == AddHooks(p, HooksIn(part)).mounts
  {
    var list := HooksIn(part);
    HooksGather(p, list);
    Neutral(p.folders, Dropped(list));
  }

  lemma MergePart(acc: Edits, parts: seq<Part>, part: Part)
    requires Merges(acc, parts) && Translatable(part.block)
    ensures Merges(AddPart(acc, part), parts + [part])
  {
    MergeFields(acc, parts, part);
    HookStepExact(Progress(acc.mounts + MountsIn(part), acc.folders, []), part);
    GatherSnoc(parts, part, FoldersIn);
    GatherSnoc(parts, part, NotesIn);
    MergeMounts(acc, parts, part);
  }

  lemma MergeFields(acc: Edits, parts: seq<Part>, part: Part)
    requires AllTranslatable(parts) && Translatable(part.block) && acc.nodes == Gather(parts, NodesIn)
    requires acc.env == FilledMap(Gather(parts, PairsIn)) && acc.gids == FirstOccurrences(Gather(parts, GidsIn))
    ensures var r, all := AddPart(acc, part), parts + [part];
            && AllTranslatable(all) && r.nodes == Gather(all, NodesIn)
            && r.env == FilledMap(Gather(all, PairsIn)) && r.gids == FirstOccurrences(Gather(all, GidsIn))
  {
    GatherSnoc(parts, part, NodesIn);
    GatherSnoc(parts, part, PairsIn);
    GatherSnoc(parts, part, GidsIn);
    FilledMapAppend(Gather(parts, PairsIn), PairsOf(part.block.env));
    FirstOccurrencesAgain(Gather(parts, GidsIn), GidsOf(part.block.gids));
  }

  lemma MergeMounts(acc: Edits, parts: seq<Part>, part: Part)
    requires Destinations(acc.mounts) == Gather(parts, PlacesIn)
    requires Subsequence(Gather(parts, MountsIn), acc.mounts) && Accounted(acc.mounts, parts)
    ensures var p, all := Progress(acc.mounts + MountsIn(part), acc.folders, []), parts + [part];
            var r := AddHooks(p, HooksIn(part)).mounts;
            Destinations(r) == Gather(all, PlacesIn) && Subsequence(Gather(all, MountsIn), r) && Accounted(r, all)
  {
    var p := Progress(acc.mounts + MountsIn(part), acc.folders, []);
    var r := AddHooks(p, HooksIn(part)).mounts;
    GatherSnoc(parts, part, PlacesIn);
    GatherSnoc(parts, part, MountsIn);
    GatherSnoc(parts, part, LinksIn);
    MountsGather(p, HooksIn(part));
    MountsMerge(SymlinkMount, acc.mounts, Gather(parts, MountsIn), Gather(parts, LinksIn), MountsIn(part),
                LinksIn(part), r, DestinationOf, LinkOf);
  }

  lemma {:induction false} FirstOccurrencesAgain<T>(a: seq<T>, b: seq<T>)
    ensures FirstOccurrences(FirstOccurrences(a) + b) == FirstOccurrences(a + b)
  {
    if b == [] {
      DedupIsIdempotent(a);
      assert a + b == a && FirstOccurrences(a) + b == FirstOccurrences(a);
    } else {
      var init, last := b[..|b| - 1], b[|b| - 1];
      FirstOccurrencesAgain(a, init);
      FirstOccurrencesSnoc(a + init, last);
      FirstOccurrencesSnoc(FirstOccurrences(a) + init, last);
      AppendLast(a, b);
      AppendLast(FirstOccurrences(a), b);
    }
  }

  lemma {:induction false} MergeParts(acc: Edits, parts: seq<Part>, more: seq<Part>)
    requires Merges(acc, parts) && AllTranslatable(more)
    ensures Merges(AddParts(acc, more), parts + more)
  {
    if more == [] {
      assert parts + more == parts;
    } else {
      var init := more[..|more| - 1];
      MergeParts(acc, parts, init);
      AppendLast(parts, more);
      MergePart(AddParts(acc, init), parts + init, more[|more| - 1]);
    }
  }

  /**
   The edits exist exactly when every identifier names a device and all its blocks can be translated; and then they are
   what these blocks, taken in order, amount to.
   */
  lemma {:induction false} EditsIff(identifiers: seq<string>, find: string -> Result<Match, Failure>)
    ensures var edits, matches := EditsOf(identifiers, find), MatchesOf(identifiers, find);
            && (edits.Ok? <==> matches.Ok? && AllTranslatable(Gather(matches.value, PartsOf)))
            && (edits.Ok? ==> Merges(edits.value, Gather(matches.value, PartsOf)))
  {
    if identifiers != [] {
      var init, last := identifiers[..|identifiers| - 1], identifiers[|identifiers| - 1];
      EditsIff(init, find);
      var before := MatchesOf(init, find);
      if before.Ok? && find(last).Ok? {
        var m := find(last).value;
        assert (before.value + [m])[..|before.value|] == before.value;
        if EditsOf(init, find).Ok? && AllTranslatable(PartsOf(m)) {
          MergeParts(EditsOf(init, find).value, Gather(before.value, PartsOf), PartsOf(m));
        }
      }
    }
  }

  /** A variable is set exactly when some entry sets it, and the last such entry wins. */
  lemma LastEntryWins(edits: Edits, parts: seq<Part>, key: string)
    requires Merges(edits, parts)
    ensures var pairs := Gather(parts, PairsIn);
            && (key in edits.env <==> key in Keys(pairs))
            && (key in edits.env ==> LastPair(pairs, key, edits.env[key]))
  {
    var pairs := Gather(parts, PairsIn);
    FilledMapKeys(pairs);
    if key in edits.env {
      FilledMapLast(pairs, key);
    }
  }

  /** Library folders come first, then what the spec itself searched, nothing twice; other variables stay. */
  lemma FoldersComeFirst(edits: Edits)
    requires edits.folders != [] && forall f :: f in edits.folders ==> ':' !in f
    ensures var env := WithFolders(edits).env;
            var existing := if LIBRARY_PATH in edits.env then NonEmpty(Split(edits.env[LIBRARY_PATH], ':')) else [];
            && LIBRARY_PATH in env
            && Split(env[LIBRARY_PATH], ':') == FirstOccurrences(edits.folders + existing)
            && (forall k :: k != LIBRARY_PATH ==>
                  (k in env <==> k in edits.env) && (k in env ==> env[k] == edits.env[k]))
  {
    var parts := if LIBRARY_PATH in edits.env then Split(edits.env[LIBRARY_PATH], ':') else [];
    var existing := NonEmpty(parts);
    NonEmptyParts(parts);
    var all := edits.folders + existing;
    FirstOccurrencesExact(all);
    assert edits.folders[0] in all;
    assert forall p :: p in FirstOccurrences(all) ==> ':' !in p;
    SplitJoin(FirstOccurrences(all), ':');
  }

  lemma {:induction false} NonEmptyParts(parts: seq<string>)
    ensures forall p :: p in NonEmpty(parts) <==> p in parts && p != ""
  {
    if parts != [] {
      var init, last := parts[..|parts| - 1], parts[|parts| - 1];
      assert parts == init + [last];
      NonEmptyParts(init);
    }
  }

  lemma {:induction false} NonEmptyInOrder(parts: seq<string>)
    ensures Subsequence(NonEmpty(parts), parts)
  {
    if parts != [] {
      var init, last := parts[..|parts| - 1], parts[|parts| - 1];
      assert parts == init + [last];
      NonEmptyInOrder(init);
      if last == "" {
        SubsequenceGrows(NonEmpty(init), init, [last]);
      } else {
        SubsequenceBoth(NonEmpty(init), init, [last]);
      }
    }
  }

  /** The resolved devices, and the parts that make up their edits. */
  ghost predicate Resolved(specs: seq<Spec>, identifiers: seq<string>, kind: string, matches: seq<Match>) {
    && |matches| == |identifiers|
    && forall i :: 0 <= i < |identifiers| ==> MatchOf(specs, identifiers[i], kind) == Ok(matches[i])
  }

  lemma ResolvedIs(specs: seq<Spec>, identifiers: seq<string>, kind: string, matches: seq<Match>)
    requires Resolved(specs, identifiers, kind, matches)
    ensures MatchesOf(identifiers, Finder(specs, kind)) == Ok(matches)
  {
    MatchesOnly(identifiers, Finder(specs, kind), matches);
  }

  lemma ResolvedOrNot(specs: seq<Spec>, identifiers: seq<string>, kind: string)
    ensures var found := MatchesOf(identifiers, Finder(specs, kind));
            found.Ok? ==> Resolved(specs, identifiers, kind, found.value)
  {
    MatchesAre(identifiers, Finder(specs, kind));
  }

  /** Without a device for every assignment there are no edits. */
  lemma UnresolvedFails(specs: seq<Spec>, identifiers: seq<string>, kind: string)
    requires ResolvedEdits(specs, identifiers, kind).Ok?
    ensures exists matches :: Resolved(specs, identifiers, kind, matches)
  {
    EditsIff(identifiers, Finder(specs, kind));
    ResolvedOrNot(specs, identifiers, kind);
  }

  /**
   With one there are edits exactly when all blocks of these devices can be translated; everything but the search path
   is then what the blocks merge to, and the search path has the collected folders in front.
   */
  lemma ResolvedEditsAre(specs: seq<Spec>, identifiers: seq<string>, kind: string, matches: seq<Match>)
    returns (plain: Edits)
    requires Resolved(specs, identifiers, kind, matches)
    ensures var r := ResolvedEdits(specs, identifiers, kind);
            && (r.Ok? <==> AllTranslatable(Gather(matches, PartsOf)))
            && (r.Ok? ==> Merges(plain, Gather(matches, PartsOf)) && r.value == plain.(env := WithFolders(plain).env))
  {
    EditsIff(identifiers, Finder(specs, kind));
    ResolvedIs(specs, identifiers, kind, matches);
    var edits := EditsOf(identifiers, Finder(specs, kind));
    plain := if edits.Ok? then edits.value else NO_EDITS;
  }
}
