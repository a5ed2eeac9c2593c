/** Resolving GPU assignments against container device interface (CDI) specs that have already been parsed. */
module Cdi {
  import opened Prelude
  import opened Text
  import opened Dedup

  // ----- names -----

  /** `gpu-` in any case, then decimal digits. */
  predicate IsIndexed(s: string) {
    && |s| > 4
    && LowerChar(s[0]) == 'g' && LowerChar(s[1]) == 'p' && LowerChar(s[2]) == 'u' && s[3] == '-'
    && AllDigits(s[4..])
  }

  function WithoutPrefix(s: string): string {
    if IsIndexed(s) then
      ParseDigitString(s[4..]);
      Digits(ParseUnsigned(s[4..]).value)
    else s
  }

  /** The one normalizer of assignments: `gpu-` in front of digits goes away, and so do leading zeros behind it. */
  function DeviceName(assignment: string): string {
    WithoutPrefix(Strip(assignment))
  }

  lemma WithoutPrefixOnce(s: string)
    requires Stripped(s)
    ensures Stripped(WithoutPrefix(s)) && WithoutPrefix(WithoutPrefix(s)) == WithoutPrefix(s)
  {
    if IsIndexed(s) {
      var digits := WithoutPrefix(s);
      assert AllDigits(digits);
      assert IsDigit(digits[0]) && IsDigit(digits[|digits| - 1]);
    }
  }

  lemma DeviceNameIsIdempotent(assignment: string)
    ensures Strip(DeviceName(assignment)) == DeviceName(assignment)
    ensures DeviceName(DeviceName(assignment)) == DeviceName(assignment)
  {
    var candidate := Strip(assignment);
    var name := WithoutPrefix(candidate);
    WithoutPrefixOnce(candidate);
    StripIsIdentity(name);
  }

  /** The prefix, in any case. */
  predicate IsPrefix(s: string) {
    && |s| == 4
    && (s[0] == 'g' || s[0] == 'G') && (s[1] == 'p' || s[1] == 'P') && (s[2] == 'u' || s[2] == 'U') && s[3] == '-'
  }

  lemma PrefixAndDigits(s: string)
    ensures IsIndexed(s) <==> |s| > 4 && IsPrefix(s[..4]) && AllDigits(s[4..])
  {
  }

  lemma PrefixedStripped(prefix: string, digits: string)
    requires IsPrefix(prefix) && AllDigits(digits)
    ensures IsIndexed(prefix + digits) && Stripped(prefix + digits) && (prefix + digits)[4..] == digits
  {
    var s := prefix + digits;
    assert s[..4] == prefix && s[4..] == digits;
    PrefixAndDigits(s);
    DigitsStripped(digits);
    assert s[|s| - 1] == digits[|digits| - 1] && s[0] == prefix[0];
  }

  /** With the prefix and digits behind it, the assignment means the number they spell, without leading zeros. */
  lemma IndexedName(left: string, prefix: string, digits: string, right: string) returns (zeros: string, n: nat)
    requires AllSpace(left) && AllSpace(right) && IsPrefix(prefix) && AllDigits(digits)
    ensures DeviceName(left + (prefix + digits) + right) == Digits(n) && ParseUnsigned(digits) == Some(n)
    ensures digits == zeros + Digits(n) && AllOf(zeros, '0')
    ensures |Digits(n)| > 1 ==> Digits(n)[0] != '0'
  {
    PrefixedStripped(prefix, digits);
    StripPads(left, prefix + digits, right);
    zeros, n := ZerosThenNumeral(digits);
    NoLeadingZero(n);
  }

  /** So every index answers to its own name. */
  lemma IndexName(n: nat)
    ensures DeviceName("gpu-" + Digits(n)) == Digits(n)
  {
    PrefixedStripped("gpu-", Digits(n));
    StripIsIdentity("gpu-" + Digits(n));
    ParseUnsignedDigits(n);
  }

  /** Everything else comes back as it is, but for the white space around it. */
  lemma OtherName(assignment: string)
    requires var s := Strip(assignment); !(|s| > 4 && IsPrefix(s[..4]) && AllDigits(s[4..]))
    ensures DeviceName(assignment) == Strip(assignment)
  {
    PrefixAndDigits(Strip(assignment));
  }

  predicate Qualified(identifier: string) {
    match CutLast(identifier, '=')
    case None => false
    case Some((kind, _)) => '/' in Strip(kind) && '.' in Strip(kind)
  }

  function SplitIdentifier(identifier: string, defaultKind: string): (string, string) {
    if Qualified(identifier) then
      var (kind, name) := CutLast(identifier, '=').value;
      (Strip(kind), Strip(name))
    else (defaultKind, Strip(identifier))
  }

  // ----- specs -----

  datatype NodeEntry = NodeEntry(path: string, hostPath: string, attributes: map<string, string>)

  datatype Mount = Mount(source: string, destination: string, kind: Option<string>, options: Option<seq<string>>)

  /** An entry of `additionalGids`: an integer, some text, or anything else. */
  datatype GidEntry = Number(n: int) | Written(text: string) | OtherGid

  /** An entry that is not a mapping has no arguments and no name. */
  datatype Hook = Hook(args: seq<string>, hookName: Option<string>)

  datatype Hooks = Hooks(list: seq<Hook>) | NotAList

  /** One `containerEdits` block. Its keys are listed apart: unknown ones matter, whatever they hold. */
  datatype EditBlock = EditBlock(keys: set<string>, nodes: seq<NodeEntry>, mounts: seq<Mount>, env: seq<string>,
                                 gids: seq<GidEntry>, hooks: Option<Hooks>)

  datatype Device = Device(edits: Option<EditBlock>)

  /** Both shapes on the wire; an entry that is not a mapping is None. */
  datatype Devices =
    | Mapping(items: seq<(string, Option<Device>)>)
    | Listing(entries: seq<Option<(string, Device)>>)
    | Unusable

  datatype Spec = Spec(kind: Option<string>, devices: Devices, edits: Option<EditBlock>)

  // ----- the device index -----

  /** A dictionary in insertion order: writing a key again changes its value and keeps its place. */
  datatype Index = Index(names: seq<string>, entries: map<string, Device>)

  const NO_DEVICES := Index([], map[])

  function Put(index: Index, name: string, device: Device): Index {
    Index(if name in index.entries then index.names else index.names + [name], index.entries[name := device])
  }

  /** The named devices of a spec, in order; entries that are no mapping or carry no name are skipped. */
  function Named(devices: Devices): seq<(string, Device)> {
    match devices
    case Mapping(items) => UsableItems(items)
    case Listing(entries) => UsableEntries(entries)
    case Unusable => []
  }

  function UsableItems(items: seq<(string, Option<Device>)>): seq<(string, Device)> {
    if items == [] then []
    else
      var before, last := UsableItems(items[..|items| - 1]), items[|items| - 1];
      if last.1.Some? then before + [(last.0, last.1.value)] else before
  }

  function UsableEntries(entries: seq<Option<(string, Device)>>): seq<(string, Device)> {
    if entries == [] then []
    else
      var before, last := UsableEntries(entries[..|entries| - 1]), entries[|entries| - 1];
      if last.Some? && Strip(last.value.0) != "" then before + [(Strip(last.value.0), last.value.1)] else before
  }

  /** A dictionary filled from pairs, later ones overwriting earlier ones. */
  function FilledMap<V>(pairs: seq<(string, V)>): map<string, V> {
    if pairs == [] then map[]
    else
      var last := pairs[|pairs| - 1];
      FilledMap(pairs[..|pairs| - 1])[last.0 := last.1]
  }

  function Keys<V>(pairs: seq<(string, V)>): seq<string> {
    seq(|pairs|, i requires 0 <= i < |pairs| => pairs[i].0)
  }

  ghost predicate LastPair<V(!new)>(pairs: seq<(string, V)>, key: string, value: V) {
    exists i :: 0 <= i < |pairs| && pairs[i] == (key, value) && forall j :: i < j < |pairs| ==> pairs[j].0 != key
  }

  lemma {:induction false} FilledMapKeys<V>(pairs: seq<(string, V)>)
    ensures forall k :: k in FilledMap(pairs) <==> k in Keys(pairs)
  {
    if pairs != [] {
      var init, last := pairs[..|pairs| - 1], pairs[|pairs| - 1];
      FilledMapKeys(init);
      assert Keys(pairs) == Keys(init) + [last.0];
    }
  }

  lemma {:induction false} FilledMapLast<V(!new)>(pairs: seq<(string, V)>, key: string)
    requires key in FilledMap(pairs)
    ensures LastPair(pairs, key, FilledMap(pairs)[key])
  {
    var init, last := pairs[..|pairs| - 1], pairs[|pairs| - 1];
    var value := FilledMap(pairs)[key];
    if key == last.0 {
      assert pairs[|pairs| - 1] == (key, value);
    } else {
      FilledMapLast(init, key);
      var i :| 0 <= i < |init| && init[i] == (key, value) && forall j :: i < j < |init| ==> init[j].0 != key;
      assert pairs[i] == (key, value);
      forall j | i < j < |pairs| ensures pairs[j].0 != key {
        assert j < |init| ==> pairs[j] == init[j];
      }
    }
  }

  lemma {:induction false} FilledMapAppend<V>(pairs: seq<(string, V)>, more: seq<(string, V)>)
    ensures FilledMap(pairs + more) == FilledMap(pairs) + FilledMap(more)
  {
    if more == [] {
      assert pairs + more == pairs;
    } else {
      var init := more[..|more| - 1];
      FilledMapAppend(pairs, init);
      assert (pairs + more)[..|pairs + more| - 1] == pairs + init;
    }
  }

  function Filled(named: seq<(string, Device)>): (index: Index)
    ensures index.entries == FilledMap(named)
  {
    if named == [] then NO_DEVICES
    else
      var last := named[|named| - 1];
      Put(Filled(named[..|named| - 1]), last.0, last.1)
  }

  function DeviceIndex(spec: Spec): Index {
    Filled(Named(spec.devices))
  }

  lemma {:induction false} FilledNames(named: seq<(string, Device)>)
    ensures var index := Filled(named);
            index.names == FirstOccurrences(Keys(named)) && forall n :: n in index.entries <==> n in index.names
  {
    if named != [] {
      var init := named[..|named| - 1];
      FilledNames(init);
      FirstOccurrencesExact(Keys(init));
      assert Keys(named)[..|named| - 1] == Keys(init);
    }
  }

  /** Every name once, in the order of first mention, with the last device of that name. */
  lemma IndexExact(spec: Spec)
    ensures var index, named := DeviceIndex(spec), Named(spec.devices);
            && index.names == FirstOccurrences(Keys(named))
            && (forall n :: n in index.entries <==> n in index.names)
            && (forall n :: n in index.entries ==> LastPair(named, n, index.entries[n]))
  {
    var named := Named(spec.devices);
    FilledNames(named);
    forall n | n in Filled(named).entries ensures LastPair(named, n, Filled(named).entries[n]) {
      FilledMapLast(named, n);
    }
  }

  method BuildIndex(spec: Spec) returns (index: Index)
    ensures index == DeviceIndex(spec)
  {
    index := NO_DEVICES;
    match spec.devices {
      case Mapping(items) =>
        for i := 0 to |items|
          invariant index == Filled(UsableItems(items[..i]))
        {
          assert items[..i + 1][..i] == items[..i];
          var (name, device) := items[i];
          if device.Some? {
            index := Put(index, name, device.value);
            FilledSnoc(UsableItems(items[..i]), (name, device.value));
          }
        }
        assert items[..|items|] == items;
      case Listing(entries) =>
        for i := 0 to |entries|
          invariant index == Filled(UsableEntries(entries[..i]))
        {
          assert entries[..i + 1][..i] == entries[..i];
          if entries[i].None? {
            continue;
          }
          var name := Strip(entries[i].value.0);
          if name == "" {
            continue;
          }
          index := Put(index, name, entries[i].value.1);
          FilledSnoc(UsableEntries(entries[..i]), (name, entries[i].value.1));
        }
        assert entries[..|entries|] == entries;
      case Unusable =>
    }
  }

  lemma FilledSnoc(named: seq<(string, Device)>, item: (string, Device))
    ensures Filled(named + [item]) == Put(Filled(named), item.0, item.1)
  {
    assert (named + [item])[..|named|] == named;
  }

  const DEFAULT_KIND := "nvidia.com/gpu"

  // ----- looking a device up -----

  /** The first name that normalizes to the alias. */
  function FirstAlias(names: seq<string>, alias: string, normal: string -> string): (r: Option<string>)
    ensures r.Some? ==> r.value in names && normal(r.value) == alias
    ensures r.None? ==> forall n :: n in names ==> normal(n) != alias
  {
    if names == [] then None
    else if normal(names[0]) == alias then Some(names[0])
    else FirstAlias(names[1..], alias, normal)
  }

  function FindDevice(index: Index, name: string, normal: string -> string): Option<string> {
    if name in index.entries then Some(name) else FirstAlias(index.names, normal(name), normal)
  }

  function FirstOfKind(specs: seq<Spec>, kind: string): (r: Option<Spec>)
    ensures r.Some? ==> r.value in specs && r.value.kind == Some(kind)
  {
    if specs == [] then None
    else if specs[0].kind == Some(kind) then Some(specs[0])
    else FirstOfKind(specs[1..], kind)
  }

  datatype Failure =
    | NoSpec(kind: string)
    | UndefinedDevice(name: string, kind: string)
    | Untranslatable(device: string)

  datatype Match = Match(spec: Spec, name: string, device: Device)

  lemma IndexNames(spec: Spec, name: string)
    ensures name in DeviceIndex(spec).names <==> name in DeviceIndex(spec).entries
  {
    FilledNames(Named(spec.devices));
  }

  function Lookup(specs: seq<Spec>, kind: string, name: string, normal: string -> string): Result<Match, Failure> {
    match FirstOfKind(specs, kind)
    case None => Err(NoSpec(kind))
    case Some(spec) =>
      var index := DeviceIndex(spec);
      match FindDevice(index, name, normal)
      case None => Err(UndefinedDevice(name, kind))
      case Some(stored) =>
        IndexNames(spec, stored);
        Ok(Match(spec, stored, index.entries[stored]))
  }

  function MatchOf(specs: seq<Spec>, identifier: string, defaultKind: string): Result<Match, Failure> {
    var (kind, name) := SplitIdentifier(DeviceName(identifier), defaultKind);
    Lookup(specs, kind, name, DeviceName)
  }

  ghost predicate CacheOk(specs: seq<Spec>, cache: map<string, Index>) {
    forall k :: k in cache ==> FirstOfKind(specs, k).Some? && cache[k] == DeviceIndex(FirstOfKind(specs, k).value)
  }

  /** With the per-kind cache, the answer is what rebuilding the index every time would give. */
  method MatchDevice(specs: seq<Spec>, identifier: string, defaultKind: string, cache: map<string, Index>)
    returns (r: Result<Match, Failure>, cache': map<string, Index>)
    requires CacheOk(specs, cache)
    ensures r == MatchOf(specs, identifier, defaultKind) && CacheOk(specs, cache')
  {
    var (kind, name) := SplitIdentifier(DeviceName(identifier), defaultKind);
    r, cache' := LookupCached(specs, kind, name, DeviceName, cache);
  }

  method LookupCached(specs: seq<Spec>, kind: string, name: string, normal: string -> string, cache: map<string, Index>)
    returns (r: Result<Match, Failure>, cache': map<string, Index>)
    requires CacheOk(specs, cache)
    ensures r == Lookup(specs, kind, name, normal) && CacheOk(specs, cache')
  {
    cache' := cache;
    var found := FirstOfKind(specs, kind);
    if found.None? {
      return Err(NoSpec(kind)), cache';
    }
    if kind !in cache' {
      var built := BuildIndex(found.value);
      cache' := cache'[kind := built];
    }
    var index := cache'[kind];
    var stored := FindDevice(index, name, normal);
    if stored.None? {
      return Err(UndefinedDevice(name, kind)), cache';
    }
    IndexNames(found.value, stored.value);
    r := Ok(Match(found.value, stored.value, index.entries[stored.value]));
  }

  function Finder(specs: seq<Spec>, kind: string): string -> Result<Match, Failure> {
    identifier => MatchOf(specs, identifier, kind)
  }

  function NamesOf(specs: seq<Spec>, identifiers: seq<string>, kind: string): Result<seq<string>, Failure> {
    match MatchesOf(identifiers, Finder(specs, kind))
    case Err(e) => Err(e)
    case Ok(matches) => Ok(MatchNames(matches))
  }

  function MatchNames(matches: seq<Match>): seq<string> {
    seq(|matches|, i requires 0 <= i < |matches| => matches[i].name)
  }

  /** The devices of all identifiers, or the first failure. */
  function MatchesOf(identifiers: seq<string>, find: string -> Result<Match, Failure>): Result<seq<Match>, Failure> {
    if identifiers == [] then Ok([])
    else
      match MatchesOf(identifiers[..|identifiers| - 1], find)
      case Err(e) => Err(e)
      case Ok(before) =>
        match find(identifiers[|identifiers| - 1])
        case Err(e) => Err(e)
        case Ok(m) => Ok(before + [m])
  }

  method ResolveNames(specs: seq<Spec>, identifiers: seq<string>, kind: string)
    returns (r: Result<seq<string>, Failure>)
    ensures r == NamesOf(specs, identifiers, kind)
  {
    var names: seq<string> := [];
    ghost var find := Finder(specs, kind);
    ghost var matches: seq<Match> := [];
    var cache: map<string, Index> := map[];
    for i := 0 to |identifiers|
      invariant MatchesOf(identifiers[..i], find) == Ok(matches)
      invariant names == MatchNames(matches) && CacheOk(specs, cache)
    {
      var m;
      m, cache := MatchDevice(specs, identifiers[i], kind, cache);
      MatchNext(identifiers, find, i, matches, m);
      if m.Err? {
        return Err(m.error);
      }
      MatchNamesSnoc(matches, m.value);
      names := names + [m.value.name];
      matches := matches + [m.value];
    }
    assert identifiers[..|identifiers|] == identifiers;
    r := Ok(names);
  }

  lemma MatchNamesSnoc(matches: seq<Match>, m: Match)
    ensures MatchNames(matches + [m]) == MatchNames(matches) + [m.name]
  {
  }

  lemma MatchNext(identifiers: seq<string>, find: string -> Result<Match, Failure>, i: nat, matches: seq<Match>,
                  next: Result<Match, Failure>)
    requires i < |identifiers| && MatchesOf(identifiers[..i], find) == Ok(matches)
    requires next == find(identifiers[i])
    ensures next.Ok? ==> MatchesOf(identifiers[..i + 1], find) == Ok(matches + [next.value])
    ensures next.Err? ==> MatchesOf(identifiers, find) == Err(next.error)
  {
    assert identifiers[..i + 1][..i] == identifiers[..i];
    if next.Err? {
      FirstFailure(identifiers, find, i + 1, next.error);
    }
  }

  lemma {:induction false} FirstFailure(identifiers: seq<string>, find: string -> Result<Match, Failure>, i: nat,
                                        e: Failure)
    requires i <= |identifiers| && MatchesOf(identifiers[..i], find) == Err(e)
    ensures MatchesOf(identifiers, find) == Err(e)
  {
    if i < |identifiers| {
      var init := identifiers[..|identifiers| - 1];
      assert init[..i] == identifiers[..i];
      FirstFailure(init, find, i, e);
    } else {
      assert identifiers[..i] == identifiers;
    }
  }

  lemma {:induction false} MatchesAre(identifiers: seq<string>, find: string -> Result<Match, Failure>)
    ensures MatchesOf(identifiers, find).Ok? <==> forall i :: i in identifiers ==> find(i).Ok?
    ensures MatchesOf(identifiers, find).Ok? ==>
              var matches := MatchesOf(identifiers, find).value;
              |matches| == |identifiers| && forall i :: 0 <= i < |matches| ==> find(identifiers[i]) == Ok(matches[i])
  {
    if identifiers != [] {
      MatchesAre(identifiers[..|identifiers| - 1], find);
      assert identifiers == identifiers[..|identifiers| - 1] + [identifiers[|identifiers| - 1]];
    }
  }

  lemma {:induction false} MatchesOnly(identifiers: seq<string>, find: string -> Result<Match, Failure>,
                                       matches: seq<Match>)
    requires |matches| == |identifiers|
    requires forall i :: 0 <= i < |identifiers| ==> find(identifiers[i]) == Ok(matches[i])
    ensures MatchesOf(identifiers, find) == Ok(matches)
  {
    if identifiers != [] {
      var last := matches[|matches| - 1];
      MatchesOnly(identifiers[..|identifiers| - 1], find, matches[..|matches| - 1]);
      assert matches == matches[..|matches| - 1] + [last];
    }
  }

  // ----- which device a name means -----

  lemma LookupNormalizes(specs: seq<Spec>, kind: string, name: string, normal: string -> string)
    requires normal(name) == name
    ensures var m := Lookup(specs, kind, name, normal); m.Ok? ==> normal(m.value.name) == name
  {
  }

  lemma BareSplit(assignment: string, kind: string)
    requires !Qualified(DeviceName(assignment))
    ensures SplitIdentifier(DeviceName(assignment), kind) == (kind, DeviceName(assignment))
  {
    DeviceNameIsIdempotent(assignment);
  }

  lemma BareMatch(specs: seq<Spec>, identifier: string, kind: string)
    requires !Qualified(DeviceName(identifier))
    ensures MatchOf(specs, identifier, kind) == Lookup(specs, kind, DeviceName(identifier), DeviceName)
  {
    BareSplit(identifier, kind);
  }

  lemma UnqualifiedMatch(specs: seq<Spec>, identifier: string, kind: string, m: Match)
    requires !Qualified(DeviceName(identifier)) && MatchOf(specs, identifier, kind) == Ok(m)
    ensures DeviceName(m.name) == DeviceName(identifier) && MatchOf(specs, m.name, kind) == Ok(m)
  {
    BareMatch(specs, identifier, kind);
    DeviceNameIsIdempotent(identifier);
    LookupNormalizes(specs, kind, DeviceName(identifier), DeviceName);
    BareMatch(specs, m.name, kind);
  }

  /**
   The names that go on the wire are stable: resolving them again gives them back, whatever the stored names look
   like, as long as the assignments they came from were bare names.
   */
  lemma NamesAreStable(specs: seq<Spec>, identifiers: seq<string>, kind: string)
    requires forall i :: i in identifiers ==> !Qualified(DeviceName(i))
    ensures var r := NamesOf(specs, identifiers, kind); r.Ok? ==> NamesOf(specs, r.value, kind) == r
  {
    var find := Finder(specs, kind);
    var all := MatchesOf(identifiers, find);
    if all.Ok? {
      MatchesAre(identifiers, find);
      forall i | 0 <= i < |all.value| ensures find(all.value[i].name) == Ok(all.value[i]) {
        UnqualifiedMatch(specs, identifiers[i], kind, all.value[i]);
      }
      FoundByName(all.value, find);
    }
  }

  lemma {:induction false} FoundByName(matches: seq<Match>, find: string -> Result<Match, Failure>)
    requires forall i :: 0 <= i < |matches| ==> find(matches[i].name) == Ok(matches[i])
    ensures MatchesOf(MatchNames(matches), find) == Ok(matches)
  {
    if matches != [] {
      var names := MatchNames(matches);
      FoundByName(matches[..|matches| - 1], find);
      assert names[..|names| - 1] == MatchNames(matches[..|matches| - 1]);
      assert matches == matches[..|matches| - 1] + [matches[|matches| - 1]];
    }
  }

  /** The name is among these, and no name before it has the same normal form. */
  predicate FirstOfItsForm(names: seq<string>, name: string, normal: string -> string) {
    exists i :: 0 <= i < |names| && names[i] == name && forall j :: 0 <= j < i ==> normal(names[j]) != normal(name)
  }

  lemma {:induction false} FirstAliasIff(names: seq<string>, name: string, normal: string -> string)
    ensures FirstAlias(names, normal(name), normal) == Some(name) <==> FirstOfItsForm(names, name, normal)
  {
    if names != [] {
      FirstAliasIff(names[1..], name, normal);
      FirstOfItsFormCons(names, name, normal);
    }
  }

  lemma FirstOfItsFormCons(names: seq<string>, name: string, normal: string -> string)
    requires names != []
    ensures FirstOfItsForm(names, name, normal) <==>
              names[0] == name || (normal(names[0]) != normal(name) && FirstOfItsForm(names[1..], name, normal))
  {
    var rest := names[1..];
    if FirstOfItsForm(names, name, normal) && names[0] != name {
      var i :| 0 <= i < |names| && names[i] == name && forall j :: 0 <= j < i ==> normal(names[j]) != normal(name);
      assert rest[i - 1] == name;
    }
    if normal(names[0]) != normal(name) && FirstOfItsForm(rest, name, normal) {
      var i :| 0 <= i < |rest| && rest[i] == name && forall j :: 0 <= j < i ==> normal(rest[j]) != normal(name);
      assert names[i + 1] == name;
      forall j | 0 <= j < i + 1 ensures normal(names[j]) != normal(name) {
        assert j > 0 ==> names[j] == rest[j - 1];
      }
    }
  }

  /**
   A defined device answers to its own bare name exactly when the normalizer leaves the name alone, or when nothing
   is defined under the normalized name and no earlier device normalizes to it.
   */
  lemma BareNameIsLiteralIff(specs: seq<Spec>, spec: Spec, name: string, kind: string)
    requires FirstOfKind(specs, kind) == Some(spec) && name in DeviceIndex(spec).entries
    requires !Qualified(DeviceName(name))
    ensures var m, index := MatchOf(specs, name, kind), DeviceIndex(spec);
            && m.Ok?
            && (m.value.name == name <==>
                  || DeviceName(name) == name
                  || (DeviceName(name) !in index.entries && FirstOfItsForm(index.names, name, DeviceName)))
  {
    BareMatch(specs, name, kind);
    DeviceNameIsIdempotent(name);
    LookupLiteral(specs, spec, kind, name, DeviceName);
  }

  lemma LookupLiteral(specs: seq<Spec>, spec: Spec, kind: string, name: string, normal: string -> string)
    requires FirstOfKind(specs, kind) == Some(spec) && name in DeviceIndex(spec).entries
    requires normal(normal(name)) == normal(name)
    ensures var m, index := Lookup(specs, kind, normal(name), normal), DeviceIndex(spec);
            && m.Ok?
            && (m.value.name == name <==>
                  || normal(name) == name
                  || (normal(name) !in index.entries && FirstOfItsForm(index.names, name, normal)))
  {
    IndexNames(spec, name);
    FirstAliasIff(DeviceIndex(spec).names, name, normal);
  }

  lemma QualifiedSplit(kind: string, name: string, defaultKind: string)
    requires '/' in kind && '.' in kind && Stripped(kind) && Stripped(name) && '=' !in name
    ensures SplitIdentifier(kind + "=" + name, defaultKind) == (kind, name)
  {
    CutLastOf(kind, name, '=');
    StripIsIdentity(kind);
    StripIsIdentity(name);
  }

  lemma EqualsNotIndexed(s: string, i: nat)
    requires i < |s| && s[i] == '='
    ensures !IsIndexed(s)
  {
    assert i >= 4 ==> s[4..][i - 4] == '=';
  }

  lemma EqualsIsNormal(s: string, i: nat)
    requires Stripped(s) && i < |s| && s[i] == '='
    ensures DeviceName(s) == s
  {
    EqualsNotIndexed(s, i);
    StripIsIdentity(s);
  }

  lemma QualifiedIsNormal(kind: string, name: string)
    requires kind != "" && Stripped(kind) && Stripped(name)
    ensures DeviceName(kind + "=" + name) == kind + "=" + name
  {
    var q := kind + "=" + name;
    assert q[|kind|] == '=' && q[0] == kind[0];
    assert q[|q| - 1] == if name == "" then '=' else name[|name| - 1];
    EqualsIsNormal(q, |kind|);
  }

  /** The qualified spelling always means the device that is literally so named. */
  lemma QualifiedIsLiteral(specs: seq<Spec>, spec: Spec, kind: string, name: string, defaultKind: string)
    requires '/' in kind && '.' in kind && Stripped(kind) && Stripped(name) && '=' !in name
    requires FirstOfKind(specs, kind) == Some(spec) && name in DeviceIndex(spec).entries
    ensures MatchOf(specs, kind + "=" + name, defaultKind) == Ok(Match(spec, name, DeviceIndex(spec).entries[name]))
  {
    QualifiedIsNormal(kind, name);
    QualifiedSplit(kind, name, defaultKind);
    NormalMatch(specs, kind + "=" + name, defaultKind, kind, name);
    LookupExact(specs, spec, kind, name, DeviceName);
  }

  lemma NormalMatch(specs: seq<Spec>, identifier: string, defaultKind: string, kind: string, name: string)
    requires DeviceName(identifier) == identifier && SplitIdentifier(identifier, defaultKind) == (kind, name)
    ensures MatchOf(specs, identifier, defaultKind) == Lookup(specs, kind, name, DeviceName)
  {
  }

  lemma LookupExact(specs: seq<Spec>, spec: Spec, kind: string, name: string, normal: string -> string)
    requires FirstOfKind(specs, kind) == Some(spec) && name in DeviceIndex(spec).entries
    ensures Lookup(specs, kind, name, normal) == Ok(Match(spec, name, DeviceIndex(spec).entries[name]))
  {
  }

  lemma AliasWins(specs: seq<Spec>, spec: Spec, kind: string, alias: string, name: string)
    requires FirstOfKind(specs, kind) == Some(spec) && name in DeviceIndex(spec).entries
    requires DeviceName(alias) == name && !Qualified(name)
    ensures MatchOf(specs, alias, kind) == Ok(Match(spec, name, DeviceIndex(spec).entries[name]))
  {
    BareMatch(specs, alias, kind);
    LookupExact(specs, spec, kind, name, DeviceName);
  }

  /** With both `0` and `gpu-0` defined, the bare name `gpu-0` means the device `0`. */
  lemma BareNameTakesTheAlias(specs: seq<Spec>, spec: Spec, kind: string)
    requires FirstOfKind(specs, kind) == Some(spec)
    requires "0" in DeviceIndex(spec).entries && "gpu-0" in DeviceIndex(spec).entries
    ensures MatchOf(specs, "gpu-0", kind) == Ok(Match(spec, "0", DeviceIndex(spec).entries["0"]))
  {
    var zero := "0";
    IndexName(0);
    NoLeadingZero(0);
    assert "gpu-" + "0" == "gpu-0";
    assert '=' !in zero;
    AliasWins(specs, spec, kind, "gpu-0", zero);
  }
}
