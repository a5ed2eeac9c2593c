/** What a create body can carry of a spec's OCI hooks: links as bind mounts, library folders, a note about the rest. */
module CdiHooks {
  import opened Prelude
  import opened Text
  import opened Dedup
  import opened Cdi

  // ----- pure POSIX paths -----

  datatype PurePath = PurePath(root: string, parts: seq<string>)

  /** Empty parts and single dots vanish; double dots stay. */
  function KeptParts(parts: seq<string>): seq<string> {
    if parts == [] then []
    else (if parts[0] == "" || parts[0] == "." then [] else [parts[0]]) + KeptParts(parts[1..])
  }

  function RootOf(text: string): string {
    if text == "" || text[0] != '/' then ""
    else if |text| > 1 && text[1] == '/' && !(|text| > 2 && text[2] == '/') then "//"
    else "/"
  }

  function ParsePath(text: string): PurePath {
    PurePath(RootOf(text), KeptParts(Split(text, '/')))
  }

  function PrintPath(p: PurePath): string {
    if p.root == "" && p.parts == [] then "." else p.root + Join(p.parts, '/')
  }

  function Parent(p: PurePath): PurePath {
    if p.parts == [] then p else PurePath(p.root, p.parts[..|p.parts| - 1])
  }

  function Under(base: PurePath, p: PurePath): PurePath {
    if p.root != "" then p else PurePath(base.root, base.parts + p.parts)
  }

  predicate PlainParts(parts: seq<string>) {
    forall p :: p in parts ==> p != "" && p != "." && '/' !in p
  }

  lemma {:induction false} KeptPlain(parts: seq<string>)
    requires PlainParts(parts)
    ensures KeptParts(parts) == parts
  {
    if parts != [] {
      var rest := parts[1..];
      assert parts == [parts[0]] + rest && parts[0] in parts;
      forall p | p in rest ensures p in parts {}
      KeptPlain(rest);
    }
  }

  /** A path of plain parts reads back as those parts. */
  lemma ParseRelative(parts: seq<string>)
    requires PlainParts(parts) && parts != []
    ensures ParsePath(Join(parts, '/')) == PurePath("", parts)
  {
    SplitJoin(parts, '/');
    KeptPlain(parts);
    JoinStarts(parts);
  }

  lemma JoinStarts(parts: seq<string>)
    requires parts != [] && parts[0] != ""
    ensures Join(parts, '/') != "" && Join(parts, '/')[0] == parts[0][0]
  {
  }

  lemma SplitAbsolute(parts: seq<string>)
    requires PlainParts(parts) && parts != []
    ensures Split("/" + Join(parts, '/'), '/') == [""] + parts
  {
    SplitJoin(parts, '/');
    SplitFirst("", Join(parts, '/'), '/');
    assert "" + ['/'] + Join(parts, '/') == "/" + Join(parts, '/');
  }

  lemma KeptAbsolute(parts: seq<string>)
    requires PlainParts(parts)
    ensures KeptParts([""] + parts) == parts
  {
    KeptPlain(parts);
    assert ([""] + parts)[1..] == parts;
  }

  lemma RootAlone()
    ensures ParsePath("/") == PurePath("/", [])
  {
    assert "/"[1..] == "";
    assert Split("/", '/') == ["", ""] && ["", ""][1..] == [""] && [""][1..] == [];
  }

  lemma ParseAbsolute(parts: seq<string>)
    requires PlainParts(parts)
    ensures ParsePath("/" + Join(parts, '/')) == PurePath("/", parts)
  {
    if parts == [] {
      RootAlone();
      assert "/" + Join(parts, '/') == "/";
    } else {
      SplitAbsolute(parts);
      KeptAbsolute(parts);
      assert parts[0] in parts;
      JoinStarts(parts);
      assert ("/" + Join(parts, '/'))[1] == parts[0][0];
    }
  }

  // ----- links -----

  /** The host path a container path is served from: the first mount at exactly this destination says so. */
  function HostSource(path: string, mounts: seq<Mount>): string {
    if mounts == [] then path
    else if mounts[0].destination == path then mounts[0].source
    else HostSource(path, mounts[1..])
  }

  const LINK_SEPARATOR := "::"
  const BIND := "bind"
  const READ_ONLY := "ro"

  /** The `target::link` pair, when both halves are there. */
  function LinkPair(pair: string): (r: Option<(string, string)>)
    ensures r.Some? ==> pair == r.value.0 + LINK_SEPARATOR + r.value.1
  {
    match CutAt(pair, LINK_SEPARATOR)
    case None => None
    case Some((target, link)) => if Strip(target) == "" || Strip(link) == "" then None else Some((target, link))
  }

  function ResolvedTarget(target: string, link: string, mounts: seq<Mount>): string {
    if RootOf(target) != "" then target
    else PrintPath(Under(ParsePath(HostSource(PrintPath(Parent(ParsePath(link))), mounts)), ParsePath(target)))
  }

  function LinkMount(target: string, link: string, mounts: seq<Mount>): Mount {
    Mount(HostSource(ResolvedTarget(target, link, mounts), mounts), link, Some(BIND), Some([BIND, READ_ONLY]))
  }

  function SymlinkMount(pair: string, mounts: seq<Mount>): Option<Mount> {
    match LinkPair(pair)
    case None => None
    case Some((target, link)) => Some(LinkMount(target, link, mounts))
  }

  /**
   A relative target is looked up next to the link, as the file system would: in the directory the link lies in, on the
   host path that directory is served from. The mount covers the link itself.
   */
  lemma RelativeLinkResolves(dir: seq<string>, name: string, base: seq<string>, more: seq<string>, mounts: seq<Mount>)
    requires PlainParts(dir) && PlainParts([name]) && PlainParts(base) && PlainParts(more) && more != []
    requires HostSource("/" + Join(dir, '/'), mounts) == "/" + Join(base, '/')
    ensures var target, link := Join(more, '/'), "/" + Join(dir + [name], '/');
            && LinkMount(target, link, mounts).destination == link
            && LinkMount(target, link, mounts).source == HostSource("/" + Join(base + more, '/'), mounts)
  {
    var whole := dir + [name];
    ParseRelative(more);
    ParseAbsolute(whole);
    ParseAbsolute(base);
    assert whole[..|whole| - 1] == dir;
  }

  /** What no mount covers is served from the same path. */
  lemma {:induction false} NotServed(path: string, mounts: seq<Mount>)
    requires forall m :: m in mounts ==> m.destination != path
    ensures HostSource(path, mounts) == path
  {
    if mounts != [] {
      assert mounts[0] in mounts && forall m :: m in mounts[1..] ==> m in mounts;
      NotServed(path, mounts[1..]);
    }
  }

  /** A pair is cut at its first separator, and counts when neither half is blank. */
  lemma PairRead(target: string, link: string)
    requires NoneBefore(target, "::")
    ensures LinkPair(target + "::" + link) ==
            if Strip(target) == "" || Strip(link) == "" then None else Some((target, link))
  {
    CutAtOf(target, "::", link);
  }

  /** Every link becomes a read-only bind mount of its target at the link. */
  lemma LinkIsBound(target: string, link: string, mounts: seq<Mount>)
    ensures var m := LinkMount(target, link, mounts);
            && m.destination == link && m.kind == Some("bind") && m.options == Some(["bind", "ro"])
            && (target != "" && target[0] == '/' ==> m.source == HostSource(target, mounts))
  {
  }

  /** A link without a directory has its target looked up as it is written. */
  lemma BareLinkResolves(name: string, more: seq<string>, mounts: seq<Mount>)
    requires PlainParts([name]) && PlainParts(more) && more != [] && forall m :: m in mounts ==> m.destination != "."
    ensures LinkMount(Join(more, '/'), name, mounts).source == HostSource(Join(more, '/'), mounts)
  {
    LiesHere(name);
    NotServed(".", mounts);
    FromHere(more);
  }

  lemma LiesHere(name: string)
    requires PlainParts([name])
    ensures PrintPath(Parent(ParsePath(name))) == "."
  {
    ParseRelative([name]);
  }

  lemma FromHere(more: seq<string>)
    requires PlainParts(more) && more != []
    ensures RootOf(Join(more, '/')) == ""
    ensures PrintPath(Under(ParsePath("."), ParsePath(Join(more, '/')))) == Join(more, '/')
  {
    ParseRelative(more);
    HereIsNothing();
    Neutral(more, more);
  }

  lemma HereIsNothing()
    ensures ParsePath(".") == PurePath("", []) && PrintPath(PurePath("", [])) == "."
  {
    SplitFirst(".", "", '/');
    assert ["."][1..] == [];
  }

  lemma Neutral<T>(a: seq<T>, b: seq<T>)
    ensures a + [] == a && [] + b == b
  {
  }

  lemma {:induction false} ServedTheSame(path: string, mounts: seq<Mount>, more: seq<Mount>)
    requires exists m :: m in mounts && m.destination == path
    ensures HostSource(path, mounts + more) == HostSource(path, mounts)
    ensures exists m :: m in mounts && m.destination == path && HostSource(path, mounts) == m.source
  {
    if mounts[0].destination != path {
      ServedTheSame(path, mounts[1..], more);
      assert (mounts + more)[1..] == mounts[1..] + more;
    }
  }

  // ----- hook commands -----

  const LEGACY_MARKER := "hook"
  const CREATE_SYMLINKS := "create-symlinks"
  const UPDATE_LDCACHE := "update-ldcache"
  const DEVICE_NODES := "disable-device-node-modification"
  const UNNAMED := "unnamed"
  const LINK_FLAG := "--link"
  const FOLDER_FLAG := "--folder"

  /** The subcommand after the binary, skipping the marker of the legacy spelling. */
  function CommandOf(args: seq<string>): string {
    var rest := if args == [] then [] else args[1..];
    var named := if rest != [] && rest[0] == LEGACY_MARKER then rest[1..] else rest;
    if named == [] then "" else named[0]
  }

  /** The non-empty values of every repeated flag. */
  function FlagValues(args: seq<string>, flag: string): seq<string> {
    if |args| < 2 then []
    else
      var before, last := FlagValues(args[..|args| - 1], flag), args[|args| - 1];
      if args[|args| - 2] == flag && last != "" then before + [last] else before
  }

  /** The flag in front of every value. */
  function Spelled(flag: string, values: seq<string>): seq<string> {
    if values == [] then [] else Spelled(flag, values[..|values| - 1]) + [flag, values[|values| - 1]]
  }

  lemma OneMoreFlag(args: seq<string>, flag: string, value: string)
    requires value != "" && (args != [] ==> args[|args| - 1] != flag)
    ensures FlagValues(args + [flag, value], flag) == FlagValues(args, flag) + [value]
  {
    var longer := args + [flag];
    assert longer[..|args|] == args;
    assert FlagValues(longer, flag) == FlagValues(args, flag);
    assert (args + [flag, value])[..|longer|] == longer;
  }

  lemma EndsInValue(head: seq<string>, flag: string, values: seq<string>)
    requires flag !in head && flag !in values
    ensures var args := head + Spelled(flag, values); args != [] ==> args[|args| - 1] != flag
  {
    if values != [] {
      assert values[|values| - 1] in values;
    } else {
      assert head + [] == head;
    }
  }

  /** Values come back in the order they were given in, whatever stands in front. */
  lemma {:induction false} FlagValuesSpelled(head: seq<string>, flag: string, values: seq<string>)
    requires flag !in head && flag !in values && "" !in values
    ensures FlagValues(head + Spelled(flag, values), flag) == values
  {
    if values == [] {
      assert head + [] == head;
      NoFlag(head, flag);
    } else {
      var init, last := values[..|values| - 1], values[|values| - 1];
      assert values == init + [last];
      NotInEnds(init, last, flag);
      NotInEnds(init, last, "");
      FlagValuesSpelled(head, flag, init);
      EndsInValue(head, flag, init);
      OneMoreFlag(head + Spelled(flag, init), flag, last);
      Associative(head, Spelled(flag, init), [flag, last]);
    }
  }

  lemma NotInEnds(init: seq<string>, last: string, x: string)
    requires x !in init + [last]
    ensures x !in init && x != last
  {
    assert last in init + [last] && forall v :: v in init ==> v in init + [last];
  }

  lemma {:induction false} NoFlag(args: seq<string>, flag: string)
    requires flag !in args
    ensures FlagValues(args, flag) == []
  {
    if |args| >= 2 {
      NoFlag(args[..|args| - 1], flag);
    }
  }

  /** Nothing counts but the non-empty arguments right behind the flag. */
  lemma {:induction false} FlagValuesIff(args: seq<string>, flag: string, value: string)
    ensures value in FlagValues(args, flag) <==>
              value != "" && exists i :: 0 <= i < |args| - 1 && args[i] == flag && args[i + 1] == value
  {
    if |args| >= 2 {
      var init := args[..|args| - 1];
      FlagValuesIff(init, flag, value);
      if exists i :: 0 <= i < |args| - 1 && args[i] == flag && args[i + 1] == value {
        var i :| 0 <= i < |args| - 1 && args[i] == flag && args[i + 1] == value;
        assert i < |init| - 1 ==> init[i] == flag && init[i + 1] == value;
      }
      if exists i :: 0 <= i < |init| - 1 && init[i] == flag && init[i + 1] == value {
        var i :| 0 <= i < |init| - 1 && init[i] == flag && init[i + 1] == value;
        assert args[i] == flag && args[i + 1] == value;
      }
    }
  }

  /** What a hook comes to: links, folders, nothing to do, or something no create body can express. */
  datatype Effect = Links(pairs: seq<string>) | Folders(folders: seq<string>) | Nothing | Unknown(name: string)

  function EffectOf(h: Hook): Effect {
    var command := CommandOf(h.args);
    if command == CREATE_SYMLINKS then Links(FlagValues(h.args, LINK_FLAG))
    else if command == UPDATE_LDCACHE then Folders(FlagValues(h.args, FOLDER_FLAG))
    else if command == DEVICE_NODES then Nothing
    else if command != "" then Unknown(command)
    else Unknown(if h.hookName.Some? && h.hookName.value != "" then h.hookName.value else UNNAMED)
  }

  /** The two spellings of a hook: the command behind the binary, or behind the binary and the legacy marker. */
  function HookArgs(binary: string, legacy: bool, command: string, more: seq<string>): seq<string> {
    (if legacy then [binary, "hook"] else [binary]) + ([command] + more)
  }

  lemma CommandRead(binary: string, legacy: bool, command: string, more: seq<string>)
    requires command == "hook" ==> legacy
    ensures CommandOf(HookArgs(binary, legacy, command, more)) == command
  {
    var args := HookArgs(binary, legacy, command, more);
    assert args[1..] == (if legacy then ["hook"] else []) + ([command] + more);
    assert legacy ==> args[1..][1..] == [command] + more;
  }

  /** Either spelling of links means these links, and of folders these folders, in order. */
  lemma HookMeans(h: Hook, binary: string, legacy: bool, command: string, flag: string, values: seq<string>)
    requires h.args == HookArgs(binary, legacy, command, Spelled(flag, values))
    requires command != "" && (command == "hook" ==> legacy)
    requires binary != flag && command != flag && flag != "hook" && flag !in values && "" !in values
    ensures command == "create-symlinks" && flag == "--link" ==> EffectOf(h) == Links(values)
    ensures command == "update-ldcache" && flag == "--folder" ==> EffectOf(h) == Folders(values)
    ensures command == "disable-device-node-modification" ==> EffectOf(h) == Nothing
    ensures command !in ["create-symlinks", "update-ldcache", "disable-device-node-modification"] ==>
              EffectOf(h) == Unknown(command)
  {
    CommandRead(binary, legacy, command, Spelled(flag, values));
    var head := (if legacy then [binary, "hook"] else [binary]) + [command];
    assert h.args == head + Spelled(flag, values);
    FlagValuesSpelled(head, flag, values);
  }

  /** Without a command a hook goes by its own name, if it has one. */
  lemma NamelessHook(h: Hook)
    requires |h.args| <= 1 || (|h.args| == 2 && (h.args[1] == "hook" || h.args[1] == ""))
    ensures EffectOf(h) == Unknown(if h.hookName.Some? && h.hookName.value != "" then h.hookName.value else "unnamed")
  {
  }

  function GoodPairs(pairs: seq<string>): (r: seq<string>)
    ensures forall p :: p in r ==> p in pairs && LinkPair(p).Some?
    ensures |r| <= |pairs| && (|r| == |pairs| <==> forall p :: p in pairs ==> LinkPair(p).Some?)
  {
    if pairs == [] then []
    else
      var before, last := GoodPairs(pairs[..|pairs| - 1]), pairs[|pairs| - 1];
      assert pairs == pairs[..|pairs| - 1] + [last];
      if LinkPair(last).Some? then before + [last] else before
  }

  function LinksOf(h: Hook): seq<string> {
    match EffectOf(h) case Links(pairs) => GoodPairs(pairs) case _ => []
  }

  function FoldersOf(h: Hook): seq<string> {
    match EffectOf(h) case Folders(folders) => folders case _ => []
  }

  function DroppedOf(h: Hook): seq<string> {
    match EffectOf(h)
    case Links(pairs) => if |GoodPairs(pairs)| == |pairs| then [] else [CREATE_SYMLINKS]
    case Unknown(name) => [name]
    case _ => []
  }

  function Linker(mounts: seq<Mount>): string -> Option<Mount> {
    pair => SymlinkMount(pair, mounts)
  }

  /** Every pair sees the mounts as they were before the hook. */
  function MountsFor(pairs: seq<string>, mounts: seq<Mount>): seq<Mount> {
    Collected(pairs, Linker(mounts))
  }

  lemma {:induction false} CollectGood(pairs: seq<string>, link: string -> Option<Mount>)
    requires forall p :: link(p).Some? <==> LinkPair(p).Some?
    ensures Collected(pairs, link) == Collected(GoodPairs(pairs), link)
    ensures |Collected(pairs, link)| == |GoodPairs(pairs)|
  {
    if pairs != [] {
      var before, last := GoodPairs(pairs[..|pairs| - 1]), pairs[|pairs| - 1];
      CollectGood(pairs[..|pairs| - 1], link);
      assert (before + [last])[..|before|] == before;
    }
  }

  lemma MountsForGood(pairs: seq<string>, mounts: seq<Mount>)
    ensures MountsFor(pairs, mounts) == MountsFor(GoodPairs(pairs), mounts)
    ensures |MountsFor(pairs, mounts)| == |GoodPairs(pairs)|
  {
    CollectGood(pairs, Linker(mounts));
  }

  // ----- the hooks of one block -----

  datatype Progress = Progress(mounts: seq<Mount>, folders: seq<string>, dropped: seq<string>)

  function AddHook(p: Progress, h: Hook): Progress {
    Progress(p.mounts + MountsFor(LinksOf(h), p.mounts), p.folders + FoldersOf(h), p.dropped + DroppedOf(h))
  }

  function AddHooks(p: Progress, hooks: seq<Hook>): Progress {
    if hooks == [] then p else AddHook(AddHooks(p, hooks[..|hooks| - 1]), hooks[|hooks| - 1])
  }

  function NoteText(device: string, hooks: string): string {
    "CDI hooks dropped for " + device + " (" + hooks + "): a container create body cannot express them, and this "
    + "host's podman did not apply the spec's own."
  }

  function CommaJoined(parts: seq<string>): string {
    if parts == [] then "" else if |parts| == 1 then parts[0] else parts[0] + ", " + CommaJoined(parts[1..])
  }

  function NotesFor(device: string, dropped: seq<string>): seq<string> {
    if dropped == [] then [] else [NoteText(device, CommaJoined(FirstOccurrences(dropped)))]
  }

  ghost predicate Holds(text: string, part: string) {
    exists before, after :: text == before + part + after
  }

  lemma HoldsWithin(before: string, text: string, after: string, part: string)
    requires Holds(text, part)
    ensures Holds(before + text + after, part)
  {
    var b, a :| text == b + part + a;
    assert before + text + after == (before + b) + part + (a + after);
  }

  lemma HoldsItself(text: string)
    ensures Holds(text, text)
  {
    assert text == "" + text + "";
  }

  lemma {:induction false} JoinedHolds(parts: seq<string>, part: string)
    requires part in parts
    ensures Holds(CommaJoined(parts), part)
  {
    HoldsItself(part);
    if |parts| > 1 {
      var first, rest := parts[0], CommaJoined(parts[1..]);
      if first == part {
        HoldsWithin("", part, ", " + rest, part);
        assert "" + part + (", " + rest) == first + ", " + rest;
      } else {
        JoinedHolds(parts[1..], part);
        HoldsWithin(first + ", ", rest, "", part);
        assert first + ", " + rest + "" == first + ", " + rest;
      }
    }
  }

  /** One note if anything is lost, none otherwise; it names the device and everything that is lost. */
  lemma NoteNamesAll(device: string, dropped: seq<string>)
    ensures dropped == [] ==> NotesFor(device, dropped) == []
    ensures dropped != [] ==> |NotesFor(device, dropped)| == 1 && Holds(NotesFor(device, dropped)[0], device)
    ensures forall name :: name in dropped ==> Holds(NotesFor(device, dropped)[0], name)
  {
    if dropped != [] {
      FirstOccurrencesExact(dropped);
      var names := FirstOccurrences(dropped);
      NoteHolds(device, CommaJoined(names), device);
      forall name | name in dropped ensures Holds(NotesFor(device, dropped)[0], name) {
        JoinedHolds(names, name);
        NoteHolds(device, CommaJoined(names), name);
      }
    }
  }

  lemma NoteHolds(device: string, hooks: string, part: string)
    requires part == device || Holds(hooks, part)
    ensures Holds(NoteText(device, hooks), part)
  {
    HeldBetween("CDI hooks dropped for ", device, " (", hooks,
                "): a container create body cannot express them, and this ",
                "host's podman did not apply the spec's own.", part);
  }

  lemma HeldBetween(a: string, device: string, b: string, hooks: string, c: string, d: string, part: string)
    requires part == device || Holds(hooks, part)
    ensures Holds(a + device + b + hooks + c + d, part)
  {
    if part == device {
      HoldsItself(device);
      HoldsWithin(a, device, b + hooks + c + d, part);
      assert a + device + (b + hooks + c + d) == a + device + b + hooks + c + d;
    } else {
      HoldsWithin(a + device + b, hooks, c + d, part);
      assert a + device + b + hooks + (c + d) == a + device + b + hooks + c + d;
    }
  }

  function Dropped(hooks: seq<Hook>): seq<string> {
    Gather(hooks, DroppedOf)
  }

  /** The create body carries everything this hook would have done. */
  predicate Delivered(h: Hook) {
    match EffectOf(h)
    case Links(pairs) => forall p :: p in pairs ==> LinkPair(p).Some?
    case Unknown(_) => false
    case _ => true
  }

  /** A note is written exactly when some hook is not delivered in full, and then it names every such hook. */
  lemma NothingLostSilently(hooks: seq<Hook>)
    ensures Dropped(hooks) == [] <==> forall h :: h in hooks ==> Delivered(h)
    ensures forall h :: h in hooks && !Delivered(h) ==> exists name :: name in DroppedOf(h) && name in Dropped(hooks)
  {
    GatherNothing(hooks, DroppedOf);
    forall h | h in hooks ensures DroppedOf(h) == [] <==> Delivered(h) {
      DroppedIff(h);
    }
    forall h | h in hooks && !Delivered(h) ensures exists name :: name in DroppedOf(h) && name in Dropped(hooks) {
      var name := DroppedOf(h)[0];
      assert name in DroppedOf(h);
      GatherHas(hooks, DroppedOf, h, name);
    }
  }

  lemma DroppedIff(h: Hook)
    ensures DroppedOf(h) == [] <==> Delivered(h)
  {
  }

  /** Folders and dropped names are those of the hooks in order, whatever the mounts. */
  lemma {:induction false} HooksGather(p: Progress, hooks: seq<Hook>)
    ensures AddHooks(p, hooks).folders == p.folders + Gather(hooks, FoldersOf)
    ensures AddHooks(p, hooks).dropped == p.dropped + Gather(hooks, DroppedOf)
  {
    if hooks != [] {
      var init, last := hooks[..|hooks| - 1], hooks[|hooks| - 1];
      HooksGather(p, init);
      Associative(p.folders, Gather(init, FoldersOf), FoldersOf(last));
      Associative(p.dropped, Gather(init, DroppedOf), DroppedOf(last));
    }
  }

  // ----- where each mount comes from -----

  /** An item that was made for one of these sources, from the items in front of it. */
  ghost predicate MadeFrom<P(!new), M>(make: (P, seq<M>) -> Option<M>, sources: seq<P>, items: seq<M>, i: nat) {
    i < |items| && exists p, j: nat :: p in sources && j <= i && make(p, items[..j]) == Some(items[i])
  }

  /** What was made stays accounted for, whatever is appended and whatever other sources there are. */
  lemma StillMade<P(!new), M>(make: (P, seq<M>) -> Option<M>, before: seq<P>, sources: seq<P>, after: seq<P>,
                              items: seq<M>, later: seq<M>, i: nat)
    requires MadeFrom(make, sources, items, i)
    ensures MadeFrom(make, before + sources + after, items + later, i)
  {
    var p, j: nat :| p in sources && j <= i && make(p, items[..j]) == Some(items[i]);
    assert (items + later)[..j] == items[..j];
    assert p in before + sources + after;
  }

  lemma MadeNow<P(!new), M>(make: (P, seq<M>) -> Option<M>, before: seq<P>, sources: seq<P>, items: seq<M>,
                            made: seq<M>, i: nat)
    requires |items| <= i < |items| + |made| && |made| == |sources|
    requires forall k :: 0 <= k < |made| ==> make(sources[k], items) == Some(made[k])
    ensures MadeFrom(make, before + sources, items + made, i)
  {
    var k, all := i - |items|, items + made;
    assert sources[k] in before + sources && all[..|items|] == items;
    assert make(sources[k], all[..|items|]) == Some(all[i]);
  }

  function LinkOf(pair: string): string {
    match LinkPair(pair) case None => "" case Some((_, link)) => link
  }

  function DestinationOf(m: Mount): string {
    m.destination
  }

  function Destinations(mounts: seq<Mount>): seq<string> {
    Mapped(mounts, DestinationOf)
  }

  function LinkNames(pairs: seq<string>): seq<string> {
    Mapped(pairs, LinkOf)
  }

  lemma MountCoversLink(pair: string, mounts: seq<Mount>)
    ensures var m := SymlinkMount(pair, mounts); m.Some? ==> m.value.destination == LinkOf(pair)
  {
  }

  lemma MappedEqually<A, B, C>(a: seq<A>, b: seq<B>, f: A -> C, g: B -> C)
    requires |a| == |b| && forall i :: 0 <= i < |a| ==> f(a[i]) == g(b[i])
    ensures Mapped(a, f) == Mapped(b, g)
  {
  }

  lemma MountsForExact(pairs: seq<string>, mounts: seq<Mount>)
    requires forall p :: p in pairs ==> LinkPair(p).Some?
    ensures var made := MountsFor(pairs, mounts);
            && |made| == |pairs|
            && (forall i :: 0 <= i < |made| ==> SymlinkMount(pairs[i], mounts) == Some(made[i]))
            && Destinations(made) == LinkNames(pairs)
  {
    var made := MountsFor(pairs, mounts);
    CollectedAll(pairs, Linker(mounts));
    forall i | 0 <= i < |made| ensures DestinationOf(made[i]) == LinkOf(pairs[i]) {
      MountCoversLink(pairs[i], mounts);
    }
    MappedEqually(made, pairs, DestinationOf, LinkOf);
  }

  /** Every mount the hooks add is made for one of their links, in the order of the links. */
  lemma {:induction false} MountsGather(p: Progress, hooks: seq<Hook>)
    ensures AddsFor(p.mounts, Gather(hooks, LinksOf), AddHooks(p, hooks).mounts)
  {
    if hooks == [] {
      assert Destinations(p.mounts) + LinkNames([]) == Destinations(p.mounts);
    } else {
      var init, last := hooks[..|hooks| - 1], hooks[|hooks| - 1];
      MountsGather(p, init);
      AddMore(p.mounts, AddHooks(p, init).mounts, Gather(init, LinksOf), LinksOf(last));
    }
  }

  /** The second list is the first, then one mount for every pair. */
  ghost predicate AddsFor(start: seq<Mount>, pairs: seq<string>, r: seq<Mount>) {
    && start <= r && Destinations(r) == Destinations(start) + LinkNames(pairs)
    && forall i :: |start| <= i < |r| ==> MadeFrom(SymlinkMount, pairs, r, i)
  }

  lemma AddMore(start: seq<Mount>, mounts: seq<Mount>, pairs: seq<string>, more: seq<string>)
    requires AddsFor(start, pairs, mounts) && forall p :: p in more ==> LinkPair(p).Some?
    ensures AddsFor(start, pairs + more, mounts + MountsFor(more, mounts))
  {
    var made := MountsFor(more, mounts);
    MountsForExact(more, mounts);
    AppendMade(SymlinkMount, start, mounts, pairs, more, made);
    AppendMapped(start, mounts, pairs, more, made, DestinationOf, LinkOf);
  }

  lemma AppendMapped<P, M, D>(start: seq<M>, items: seq<M>, sources: seq<P>, more: seq<P>, made: seq<M>,
                              place: M -> D, named: P -> D)
    requires Mapped(items, place) == Mapped(start, place) + Mapped(sources, named)
    requires Mapped(made, place) == Mapped(more, named)
    ensures Mapped(items + made, place) == Mapped(start, place) + Mapped(sources + more, named)
  {
    MappedAppend(items, made, place);
    MappedAppend(sources, more, named);
    Associative(Mapped(start, place), Mapped(sources, named), Mapped(more, named));
  }

  lemma AppendMade<P(!new), M>(make: (P, seq<M>) -> Option<M>, start: seq<M>, items: seq<M>, sources: seq<P>,
                               more: seq<P>, made: seq<M>)
    requires start <= items && |made| == |more|
    requires forall i :: |start| <= i < |items| ==> MadeFrom(make, sources, items, i)
    requires forall k :: 0 <= k < |made| ==> make(more[k], items) == Some(made[k])
    ensures start <= items + made
    ensures forall i :: |start| <= i < |items + made| ==> MadeFrom(make, sources + more, items + made, i)
  {
    forall i | |start| <= i < |items + made| ensures MadeFrom(make, sources + more, items + made, i) {
      if i < |items| {
        StillMade(make, [], sources, more, items, made, i);
        assert [] + sources + more == sources + more;
      } else {
        MadeNow(make, sources, more, items, made, i);
      }
    }
  }
}
