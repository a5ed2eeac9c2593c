/** Starting a Space's container: port allocation and the two ways of delivering a GPU, against any podman. */
module SpaceRuntime {
  import opened Prelude
  import opened Text
  import opened Cdi
  import opened CdiEdits

  // ----- podman -----

  /** Accepted, refused with an error status, or a broken connection; a lost call may have been carried out. */
  datatype Answer = Done | Refused | Lost(applied: bool)

  datatype DeviceField = Named(path: string) | Translated(node: Node)

  datatype Body = Body(name: string, image: string, hostPort: nat, containerPort: nat, env: map<string, string>,
                       gpus: Option<seq<string>>, devices: Option<seq<DeviceField>>,
                       mounts: Option<seq<Mount>>, groups: Option<seq<string>>)

  datatype Container = Container(body: Body, running: bool)

  /** The managed Space containers by name. */
  type Containers = map<string, Container>

  datatype Call =
    | Create(body: Body, answer: Answer)
    | Start(name: string, answer: Answer)
    | Delete(name: string, answer: Answer)

  function Target(c: Call): string {
    if c.Create? then c.body.name else c.name
  }

  predicate Applied(a: Answer) {
    a.Done? || (a.Lost? && a.applied)
  }

  /** A name can be created once, only an existing container can be started, and deleting a missing one is fine. */
  predicate Possible(cs: Containers, c: Call) {
    match c
    case Create(body, _) => body.name !in cs
    case Start(name, _) => name in cs
    case Delete(_, _) => true
  }

  function Effect(cs: Containers, c: Call): Containers {
    if !Applied(c.answer) || !Possible(cs, c) then cs
    else
      match c
      case Create(body, _) => cs[body.name := Container(body, false)]
      case Start(name, _) => cs[name := cs[name].(running := true)]
      case Delete(name, _) => cs - {name}
  }

  /** The daemon: its answers are arbitrary, its state follows from the calls it carried out. */
  class Podman {
    const answers: nat -> Answer
    var calls: nat
    var containers: Containers
    ghost var log: seq<Call>

    constructor (answers: nat -> Answer, containers: Containers)
      ensures this.answers == answers && this.containers == containers && log == [] && calls == 0
    {
      this.answers, this.containers, this.log, this.calls := answers, containers, [], 0;
    }

    method Perform(c: Call) returns (ok: bool)
      requires c.answer == answers(calls)
      modifies this
      ensures containers == Effect(old(containers), c) && log == old(log) + [c] && calls == old(calls) + 1
      ensures ok <==> c.answer.Done? && Possible(old(containers), c)
    {
      ok := c.answer.Done? && Possible(containers, c);
      containers := Effect(containers, c);
      log := log + [c];
      calls := calls + 1;
    }

    /** Any call that only reads; None when it fails. */
    method Snapshot() returns (r: Option<Containers>)
      modifies `calls
      ensures r == if answers(old(calls)).Done? then Some(containers) else None
      ensures calls == old(calls) + 1
    {
      r := if answers(calls).Done? then Some(containers) else None;
      calls := calls + 1;
    }
  }

  // ----- ports -----

  function PortsUsed(cs: Containers): set<nat> {
    set name | name in cs :: cs[name].body.hostPort
  }

  /** Every managed container has a port of its own, inside the range. */
  ghost predicate PortsOk(cs: Containers, first: nat, last: nat) {
    && (forall n :: n in cs ==> first <= cs[n].body.hostPort <= last)
    && (forall n1, n2 :: n1 in cs && n2 in cs && n1 != n2 ==> cs[n1].body.hostPort != cs[n2].body.hostPort)
  }

  /** The least free port; none exactly when all of the range is taken. */
  method LeastFree(used: set<nat>, first: nat, last: nat) returns (r: Option<nat>)
    ensures r.Some? ==> first <= r.value <= last && r.value !in used && forall p :: first <= p < r.value ==> p in used
    ensures r.None? <==> forall p :: first <= p <= last ==> p in used
  {
    var port := first;
    while port <= last
      invariant first <= port && forall p :: first <= p < port ==> p in used
    {
      if port !in used {
        return Some(port);
      }
      port := port + 1;
    }
    r := None;
  }

  function PortRange(first: nat, last: nat): (r: set<nat>)
    requires first <= last + 1
    ensures forall p :: p in r <==> first <= p <= last
    ensures |r| == last + 1 - first
    decreases last + 1 - first
  {
    if first == last + 1 then {} else {first} + PortRange(first + 1, last)
  }

  lemma {:induction false} UsedCount(cs: Containers)
    ensures |PortsUsed(cs)| <= |cs|
    decreases |cs|
  {
    if cs == map[] {
      assert PortsUsed(cs) == {};
    } else {
      var n :| n in cs;
      var rest := cs - {n};
      UsedCount(rest);
      forall p | p in PortsUsed(cs) ensures p in PortsUsed(rest) + {cs[n].body.hostPort} {
        var m :| m in cs && cs[m].body.hostPort == p;
        assert m != n ==> m in rest;
      }
      SubsetCount(PortsUsed(cs), PortsUsed(rest) + {cs[n].body.hostPort});
    }
  }

  lemma SubsetCount(a: set<nat>, b: set<nat>)
    requires a <= b
    ensures |a| <= |b|
  {
    assert b == a + (b - a);
  }

  /** Pigeonhole: with fewer managed containers than ports, some port of the range is free. */
  lemma PortsRunOutOnlyWhenFull(cs: Containers, first: nat, last: nat)
    requires first <= last + 1
    requires forall p :: first <= p <= last ==> p in PortsUsed(cs)
    ensures |cs| >= last + 1 - first
  {
    UsedCount(cs);
    SubsetCount(PortRange(first, last), PortsUsed(cs));
  }

  // ----- request bodies -----

  /** The names replaced by the spec's own edits; everything else as in the first body. */
  function TranslatedBody(body: Body, edits: Edits): Body {
    body.(gpus := None,
          devices := Some(seq(|edits.nodes|, i requires 0 <= i < |edits.nodes| => Translated(edits.nodes[i]))),
          mounts := Some(edits.mounts),
          env := body.env + edits.env,
          groups := if edits.gids != [] then Some(edits.gids) else body.groups)
  }

  const SPACE_PORT := 8000

  function PlainBody(name: string, image: string, port: nat): Body {
    Body(name, image, port, SPACE_PORT, map["PORT" := Digits(SPACE_PORT)], None, None, None, None)
  }

  /** Podman's own delivery: the `gpus` field since version 6, qualified device names before. */
  function NamedBody(body: Body, names: seq<string>, gpusField: bool): Body {
    if gpusField then body.(gpus := Some(names))
    else body.(devices := Some(seq(|names|, i requires 0 <= i < |names| => Named(DEFAULT_KIND + "=" + names[i]))))
  }

  function MajorVersion(version: string): int {
    match ParseInt(Split(Strip(version), '.')[0])
    case Some(n) => n
    case None => 0
  }

  /** The leading number of a version, whatever follows its first dot. */
  lemma MajorVersionRead(text: string, n: nat, rest: string)
    requires Strip(text) == Digits(n) + rest && (rest == "" || rest[0] == '.')
    ensures MajorVersion(text) == n
  {
    assert forall i :: 0 <= i < |Digits(n)| ==> IsDigit(Digits(n)[i]);
    if rest == "" {
      assert Digits(n) + "" == Digits(n);
      SplitFirst(Digits(n), "", '.');
    } else {
      SplitFirst(Digits(n), rest[1..], '.');
      assert Digits(n) + ['.'] + rest[1..] == Digits(n) + rest;
    }
    ParseIntDigits(n);
  }

  /** A version that starts with a letter counts as zero. */
  lemma MajorVersionUnread(text: string, head: string, rest: string)
    requires Strip(text) == head + rest && (rest == "" || rest[0] == '.') && '.' !in head && head != ""
    requires !IsDigit(head[0]) && head[0] != '+' && head[0] != '-' && Stripped(head)
    ensures MajorVersion(text) == 0
  {
    if rest == "" {
      assert head + "" == head;
      SplitFirst(head, "", '.');
    } else {
      SplitFirst(head, rest[1..], '.');
      assert head + ['.'] + rest[1..] == head + rest;
    }
    StripIsIdentity(head);
    if ParseUnsigned(head).Some? {
      NumeralsStartWithDigits(head);
    }
  }

  predicate NamesDevices(body: Body) {
    body.gpus.Some? || (body.devices.Some? && exists d :: d in body.devices.value && d.Named?)
  }

  predicate TranslatesDevices(body: Body) {
    body.mounts.Some? || (body.devices.Some? && exists d :: d in body.devices.value && d.Translated?)
  }

  /** No body spells the same device both ways. */
  lemma OneSpelling(name: string, image: string, port: nat, names: seq<string>, gpusField: bool, edits: Edits)
    ensures var first := NamedBody(PlainBody(name, image, port), names, gpusField);
            && !TranslatesDevices(first)
            && !NamesDevices(TranslatedBody(first, edits)) && TranslatesDevices(TranslatedBody(first, edits))
            && (names != [] ==> NamesDevices(first))
  {
    var first := NamedBody(PlainBody(name, image, port), names, gpusField);
    if names != [] && !gpusField {
      assert first.devices.value[0].Named?;
    }
  }

  /**
   The body asks for what the edits hold, field by field: the nodes one for one in their order, all mounts, the edits'
   variables over the first body's own, and their groups if there are any. No name is left, and the rest is untouched.
   */
  ghost predicate Carries(t: Body, body: Body, edits: Edits) {
    && t.name == body.name && t.image == body.image
    && t.hostPort == body.hostPort && t.containerPort == body.containerPort
    && t.gpus == None
    && t.devices.Some? && |t.devices.value| == |edits.nodes|
    && (forall i :: 0 <= i < |edits.nodes| ==> t.devices.value[i] == Translated(edits.nodes[i]))
    && t.mounts == Some(edits.mounts)
    && (forall k :: k in t.env <==> k in body.env || k in edits.env)
    && (forall k :: k in edits.env ==> t.env[k] == edits.env[k])
    && (forall k :: k in body.env && k !in edits.env ==> t.env[k] == body.env[k])
    && t.groups == if edits.gids == [] then body.groups else Some(edits.gids)
  }

  /** What the retry delivers. */
  lemma TranslationDelivers(body: Body, edits: Edits)
    ensures Carries(TranslatedBody(body, edits), body, edits)
  {
    var t := TranslatedBody(body, edits);
    assert t.env == body.env + edits.env;
  }

  /** The names are spelled in the one field this podman understands. */
  ghost predicate SendsNames(body: Body, names: seq<string>, gpusField: bool) {
    if gpusField then body.gpus == Some(names) && body.devices == None
    else
      && body.gpus == None && body.devices.Some? && |body.devices.value| == |names|
      && forall i :: 0 <= i < |names| ==> body.devices.value[i] == Named("nvidia.com/gpu=" + names[i])
  }

  /** A container for this image behind this port, told the port it is reached on, with these devices by name. */
  ghost predicate AsAsked(body: Body, name: string, image: string, port: nat, names: Option<seq<string>>,
                          gpusField: bool)
  {
    && body.name == name && body.image == image && body.hostPort == port
    && body.env == map["PORT" := Digits(body.containerPort)]
    && body.mounts == None && body.groups == None
    && match names
       case None => body.gpus == None && body.devices == None
       case Some(devices) => SendsNames(body, devices, gpusField)
  }

  /** The qualified path of a defined device, resolved by the same rules, is that very device. */
  lemma DevicePathsResolve(specs: seq<Spec>, spec: Spec, plain: Body, names: seq<string>, i: nat, kind: string)
    requires i < |names| && FirstOfKind(specs, DEFAULT_KIND) == Some(spec) && names[i] in DeviceIndex(spec).entries
    requires Stripped(names[i]) && '=' !in names[i]
    ensures var devices := NamedBody(plain, names, false).devices;
            && devices.Some? && |devices.value| == |names| && devices.value[i].Named?
            && MatchOf(specs, devices.value[i].path, kind)
               == Ok(Match(spec, names[i], DeviceIndex(spec).entries[names[i]]))
  {
    DefaultKindIsQualified();
    QualifiedIsLiteral(specs, spec, DEFAULT_KIND, names[i], kind);
    PathOfName(plain, names, i);
  }

  lemma DefaultKindIsQualified()
    ensures '/' in DEFAULT_KIND && '.' in DEFAULT_KIND && Stripped(DEFAULT_KIND)
  {
    assert DEFAULT_KIND[6] == '.' && DEFAULT_KIND[10] == '/' && DEFAULT_KIND[0] == 'n' && DEFAULT_KIND[13] == 'u';
  }

  lemma PathOfName(plain: Body, names: seq<string>, i: nat)
    requires i < |names|
    ensures var devices := NamedBody(plain, names, false).devices;
            && devices.Some? && |devices.value| == |names|
            && devices.value[i] == Named(DEFAULT_KIND + "=" + names[i])
  {
  }

  // ----- names -----

  function ContainerName(owner: string, name: string): string {
    "outo-space-" + owner + "-" + name
  }

  function ImageTag(owner: string, name: string): string {
    "localhost/outo-space-" + owner + "-" + name + ":latest"
  }

  /** Image and container go by the same name. */
  lemma ImageOfContainer(owner: string, name: string)
    ensures ImageTag(owner, name) == "localhost/" + ContainerName(owner, name) + ":latest"
  {
  }

  lemma NamesMeet(owner1: string, name1: string, owner2: string, name2: string)
    ensures ContainerName(owner1, name1) == ContainerName(owner2, name2)
            <==> owner1 + "-" + name1 == owner2 + "-" + name2
  {
    var c1, c2 := ContainerName(owner1, name1), ContainerName(owner2, name2);
    assert c1[11..] == owner1 + "-" + name1 && c2[11..] == owner2 + "-" + name2;
    assert c1 == c1[..11] + c1[11..] && c2 == c2[..11] + c2[11..] && c1[..11] == c2[..11];
  }

  /** Two Spaces have one container name between them exactly when the owner and name of one regroup to the other's. */
  lemma ContainerNamesMeetIff(owner1: string, name1: string, owner2: string, name2: string)
    requires |owner1| <= |owner2|
    ensures ContainerName(owner1, name1) == ContainerName(owner2, name2) <==>
              || (owner1 == owner2 && name1 == name2)
              || exists middle :: owner2 == owner1 + "-" + middle && name1 == middle + "-" + name2
  {
    NamesMeet(owner1, name1, owner2, name2);
    var s, t := owner1 + "-" + name1, owner2 + "-" + name2;
    if s == t {
      assert owner1 == s[..|owner1|] == owner2[..|owner1|];
      if |owner1| == |owner2| {
        assert name1 == s[|owner1| + 1..] == name2;
      } else {
        var middle := owner2[|owner1| + 1..];
        assert s[|owner1|] == '-' == owner2[|owner1|];
        assert owner2 == owner1 + "-" + middle;
        assert name1 == s[|owner1| + 1..] == middle + "-" + name2;
      }
    }
    if exists middle :: owner2 == owner1 + "-" + middle && name1 == middle + "-" + name2 {
      var middle :| owner2 == owner1 + "-" + middle && name1 == middle + "-" + name2;
      assert s == t == owner1 + "-" + middle + "-" + name2;
    }
  }

  // ----- starting -----

  datatype StartError = PodmanFailed | NoFreePort | Unresolved(failure: Failure)

  /** The calls of one start: removing an old container, the first attempt, clearing up after it, the second. */
  datatype Trace = Trace(removal: seq<Call>, first: seq<Call>, between: seq<Call>, second: seq<Call>) {
    function All(): seq<Call> {
      removal + (first + (between + second))
    }
  }

  function Creates(calls: seq<Call>): nat {
    if calls == [] then 0
    else Creates(calls[..|calls| - 1]) + if calls[|calls| - 1].Create? then 1 else 0
  }

  /** A create, and a start if podman accepted the create. */
  ghost predicate IsAttempt(calls: seq<Call>, body: Body) {
    && 1 <= |calls| <= 2
    && calls[0].Create? && calls[0].body == body
    && (|calls| == 2 ==> calls[0].answer == Done && calls[1].Start? && calls[1].name == body.name)
  }

  ghost predicate Succeeded(calls: seq<Call>) {
    calls != [] && calls[|calls| - 1].Start? && calls[|calls| - 1].answer.Done?
  }

  /** At most one delete of the container. */
  ghost predicate IsRemoval(calls: seq<Call>, name: string) {
    |calls| <= 1 && forall c :: c in calls ==> c.Delete? && c.name == name
  }

  predicate Running(cs: Containers, name: string) {
    name in cs && cs[name].running
  }

  /** Whether the container is left running, from what podman carried out. */
  function LeftRunning(before: bool, calls: seq<Call>): bool {
    if calls == [] then before
    else
      var earlier, last := LeftRunning(before, calls[..|calls| - 1]), calls[|calls| - 1];
      match last
      case Create(_, _) => earlier
      case Start(_, answer) => earlier || Applied(answer)
      case Delete(_, answer) => earlier && !Applied(answer)
  }

  /** The two public resolvers, as functions of the specs that were read and the normalized ids. */
  datatype Resolver = Resolver(names: (seq<Spec>, seq<string>) -> Result<seq<string>, Failure>,
                               edits: (seq<Spec>, seq<string>) -> Result<Edits, Failure>)

  function CdiResolver(): Resolver {
    Resolver((specs, ids) => NamesOf(specs, ids, DEFAULT_KIND), (specs, ids) => ResolvedEdits(specs, ids, DEFAULT_KIND))
  }

  /** Both resolvers go by the same devices: there are names exactly when each id has one, and they are theirs. */
  lemma ResolversAgree(specs: seq<Spec>, ids: seq<string>)
    ensures var names := CdiResolver().names(specs, ids);
            && (names.Ok? <==> exists matches: seq<Match> :: Resolved(specs, ids, DEFAULT_KIND, matches))
            && (forall matches: seq<Match> :: Resolved(specs, ids, DEFAULT_KIND, matches) ==>
                  names == Ok(MatchNames(matches)))
    ensures CdiResolver().edits(specs, ids) == ResolvedEdits(specs, ids, "nvidia.com/gpu")
  {
    ResolvedOrNot(specs, ids, DEFAULT_KIND);
    forall matches: seq<Match> | Resolved(specs, ids, DEFAULT_KIND, matches)
      ensures NamesOf(specs, ids, DEFAULT_KIND) == Ok(MatchNames(matches))
    {
      ResolvedIs(specs, ids, DEFAULT_KIND, matches);
    }
  }

  /** The device names for the wire: the spec's spelling, or the normalized ids when no spec can be read. */
  function WireNames(ids: seq<string>, specs: seq<Spec>, resolver: Resolver): Result<seq<string>, Failure> {
    if specs == [] then Ok(ids) else resolver.names(specs, ids)
  }

  function FirstBody(plain: Body, ids: seq<string>, specs: seq<Spec>, gpusField: bool, resolver: Resolver)
    : Result<Body, Failure>
  {
    if ids == [] then Ok(plain)
    else
      match WireNames(ids, specs, resolver)
      case Err(e) => Err(e)
      case Ok(names) => Ok(NamedBody(plain, names, gpusField))
  }

  /** The names that go out: none without an assignment, the ids as they are when no spec is found, else the spec's. */
  ghost predicate NamesToSend(names: Option<seq<string>>, ids: seq<string>, specs: seq<Spec>, resolver: Resolver) {
    if ids == [] then names == None
    else names.Some? && if specs == [] then names.value == ids else resolver.names(specs, ids) == Ok(names.value)
  }

  lemma FirstBodyAsks(name: string, image: string, port: nat, ids: seq<string>, specs: seq<Spec>, gpusField: bool,
                      resolver: Resolver, body: Body) returns (names: Option<seq<string>>)
    requires FirstBody(PlainBody(name, image, port), ids, specs, gpusField, resolver) == Ok(body)
    ensures NamesToSend(names, ids, specs, resolver) && AsAsked(body, name, image, port, names, gpusField)
  {
    if ids == [] {
      names := None;
    } else {
      names := Some(WireNames(ids, specs, resolver).value);
    }
  }

  /** What runs after a start that succeeded: the container that was asked for, or the one the edits make of it. */
  ghost predicate Boots(final: Body, name: string, image: string, port: nat, ids: seq<string>, gpusField: bool,
                       resolver: Resolver, before: seq<Spec>, after: seq<Spec>, retried: bool)
  {
    exists body, names ::
      && NamesToSend(names, ids, before, resolver) && AsAsked(body, name, image, port, names, gpusField)
      && if retried then ids != [] && resolver.edits(after, ids).Ok?
                         && Carries(final, body, resolver.edits(after, ids).value)
         else final == body
  }

  lemma BootsAsAsked(name: string, image: string, port: nat, ids: seq<string>, gpusField: bool, resolver: Resolver,
                    before: seq<Spec>, after: seq<Spec>, second: seq<Call>, body: Body, edits: Result<Edits, Failure>)
    requires FirstBody(PlainBody(name, image, port), ids, before, gpusField, resolver) == Ok(body)
    requires second != [] ==> ids != [] && edits.Ok? && edits == resolver.edits(after, ids)
    ensures Boots(FinalBody(second, body, edits), name, image, port, ids, gpusField, resolver, before, after,
                      second != [])
  {
    var names := FirstBodyAsks(name, image, port, ids, before, gpusField, resolver, body);
    if second != [] {
      TranslationDelivers(body, edits.value);
    }
  }

  function DeviceNames(gpuIds: seq<string>): (r: seq<string>)
    ensures |r| == |gpuIds| && forall i :: 0 <= i < |gpuIds| ==> r[i] == DeviceName(gpuIds[i])
  {
    seq(|gpuIds|, i requires 0 <= i < |gpuIds| => DeviceName(gpuIds[i]))
  }

  class SpaceRuntimeManager {
    const podman: Podman
    const firstPort: nat
    const lastPort: nat
    const gpusField: bool
    const resolver: Resolver
    /** What the n-th reading of the spec directories finds. */
    const specs: nat -> seq<Spec>
    var readings: nat

    constructor (podman: Podman, firstPort: nat, lastPort: nat, version: Option<string>, resolver: Resolver,
                 specs: nat -> seq<Spec>)
      ensures this.podman == podman && this.firstPort == firstPort && this.lastPort == lastPort
      ensures gpusField <==> version.Some? && MajorVersion(version.value) >= 6
      ensures this.resolver == resolver && this.specs == specs && readings == 0
    {
      this.podman, this.firstPort, this.lastPort := podman, firstPort, lastPort;
      this.gpusField := version.Some? && MajorVersion(version.value) >= 6;
      this.resolver, this.specs, this.readings := resolver, specs, 0;
    }

    ghost predicate LeastFreePort(cs: Containers, port: nat) {
      && firstPort <= port <= lastPort && port !in PortsUsed(cs)
      && forall p :: firstPort <= p < port ==> p in PortsUsed(cs)
    }

    method AllocateHostPort() returns (r: Result<nat, StartError>)
      modifies podman`calls
      ensures r.Ok? ==> LeastFreePort(podman.containers, r.value)
      ensures r == Err(NoFreePort) ==> forall p :: firstPort <= p <= lastPort ==> p in PortsUsed(podman.containers)
      ensures r.Err? ==> r.error == NoFreePort || r.error == PodmanFailed
    {
      var listed := podman.Snapshot();
      if listed.None? {
        return Err(PodmanFailed);
      }
      var port := LeastFree(PortsUsed(listed.value), firstPort, lastPort);
      r := if port.Some? then Ok(port.value) else Err(NoFreePort);
    }

    method CreateAndStart(body: Body) returns (ok: bool, ghost calls: seq<Call>)
      modifies podman
      ensures podman.log == old(podman.log) + calls && IsAttempt(calls, body) && (ok <==> Succeeded(calls))
      ensures ok ==> podman.containers == old(podman.containers)[body.name := Container(body, true)]
      ensures OnlyThis(old(podman.containers), podman.containers, body.name, body.hostPort)
      ensures Running(podman.containers, body.name) == LeftRunning(Running(old(podman.containers), body.name), calls)
    {
      var create := Create(body, podman.answers(podman.calls));
      ok := podman.Perform(create);
      calls := [create];
      LeftRunningSnoc(Running(old(podman.containers), body.name), [], create);
      if ok {
        var start := Call.Start(body.name, podman.answers(podman.calls));
        ok := podman.Perform(start);
        LeftRunningSnoc(Running(old(podman.containers), body.name), calls, start);
        calls := calls + [start];
      }
    }

    method DeleteContainer(name: string) returns (ok: bool, ghost calls: seq<Call>)
      modifies podman
      ensures podman.log == old(podman.log) + calls && |calls| == 1 && IsRemoval(calls, name)
      ensures ok <==> calls[0].answer.Done?
      ensures podman.containers == if Applied(calls[0].answer) then old(podman.containers) - {name}
                                   else old(podman.containers)
      ensures Running(podman.containers, name) == LeftRunning(Running(old(podman.containers), name), calls)
    {
      var delete := Delete(name, podman.answers(podman.calls));
      ok := podman.Perform(delete);
      calls := [delete];
      LeftRunningSnoc(Running(old(podman.containers), name), [], delete);
    }

    method ResolveGpuEdits(ids: seq<string>) returns (r: Result<Edits, Failure>)
      modifies `readings
      ensures readings == old(readings) + 1 && r == resolver.edits(specs(old(readings)), ids)
    {
      r := resolver.edits(specs(readings), ids);
      readings := readings + 1;
    }

    /** Clears up after the first attempt, because podman refuses a name twice, and tries the other body. */
    method SecondAttempt(body: Body)
      returns (cleared: bool, ok: bool, ghost between: seq<Call>, ghost second: seq<Call>)
      modifies podman
      ensures podman.log == old(podman.log) + (between + second)
      ensures |between| == 1 && IsRemoval(between, body.name)
      ensures cleared <==> between[0].answer.Done?
      ensures if cleared then IsAttempt(second, body) else second == []
      ensures ok <==> Succeeded(second)
      ensures ok ==> podman.containers == old(podman.containers)[body.name := Container(body, true)]
      ensures OnlyThis(old(podman.containers), podman.containers, body.name, body.hostPort)
      ensures Running(podman.containers, body.name) ==
              LeftRunning(Running(old(podman.containers), body.name), between + second)
    {
      second, ok := [], false;
      cleared, between := DeleteContainer(body.name);
      assert between + second == between;
      if cleared {
        ok, second := CreateAndStart(body);
        LeftRunningAppend(Running(old(podman.containers), body.name), between, second);
      }
    }

    /** The retry with the spec's own edits for the names; whatever fails, the resolver's diagnosis goes first. */
    method RetryTranslated(body: Body, ids: seq<string>)
      returns (r: Result<string, StartError>, ghost edits: Result<Edits, Failure>, ghost between: seq<Call>,
               ghost second: seq<Call>)
      modifies this`readings, podman
      ensures edits == resolver.edits(specs(old(readings)), ids)
      ensures podman.log == old(podman.log) + (between + second) && IsRemoval(between, body.name)
      ensures edits.Err? ==> r == Err(Unresolved(edits.error)) && between == second == []
      ensures edits.Ok? ==> |between| == 1
      ensures second != [] ==> edits.Ok? && between[0].answer.Done?
                               && IsAttempt(second, TranslatedBody(body, edits.value))
      ensures r.Ok? <==> Succeeded(second)
      ensures r.Ok? ==> r.value == Join(edits.value.notes, ' ')
                        && podman.containers ==
                           old(podman.containers)[body.name := Container(TranslatedBody(body, edits.value), true)]
                        && Carries(podman.containers[body.name].body, body, edits.value)
      ensures OnlyThis(old(podman.containers), podman.containers, body.name, body.hostPort)
      ensures Running(podman.containers, body.name) ==
              LeftRunning(Running(old(podman.containers), body.name), between + second)
    {
      between, second := [], [];
      assert between + second == [];
      var resolved := ResolveGpuEdits(ids);
      edits := resolved;
      if resolved.Err? {
        return Err(Unresolved(resolved.error)), edits, between, second;
      }
      var cleared, ok;
      cleared, ok, between, second := SecondAttempt(TranslatedBody(body, resolved.value));
      if !cleared {
        return Err(PodmanFailed), edits, between, second;
      }
      if ok {
        TranslationDelivers(body, resolved.value);
        return Ok(Join(resolved.value.notes, ' ')), edits, between, second;
      }
      var again := ResolveGpuEdits(ids);
      r := Err(if again.Err? then Unresolved(again.error) else PodmanFailed);
    }

    /** Podman's own resolution first; a refusal with a GPU assigned gets one translated retry. */
    method DeliverGpuLadder(body: Body, ids: seq<string>)
      returns (r: Result<string, StartError>, ghost edits: Result<Edits, Failure>, ghost first: seq<Call>,
               ghost between: seq<Call>, ghost second: seq<Call>)
      modifies this`readings, podman
      ensures edits == resolver.edits(specs(old(readings)), ids)
      ensures podman.log == old(podman.log) + (first + (between + second))
      ensures IsAttempt(first, body) && IsRemoval(between, body.name)
      ensures Succeeded(first) || ids == [] ==> between == second == []
      ensures !Succeeded(first) && ids != [] && edits.Err? ==> r == Err(Unresolved(edits.error)) && between == []
      ensures second != [] ==> edits.Ok? && between != [] && between[0].answer.Done?
                               && IsAttempt(second, TranslatedBody(body, edits.value))
      ensures r.Ok? <==> Succeeded(first) || Succeeded(second)
      ensures r.Ok? ==> var final := if second == [] then body else TranslatedBody(body, edits.value);
                        podman.containers == old(podman.containers)[body.name := Container(final, true)]
      ensures r.Ok? ==> r.value == if second == [] then "" else Join(edits.value.notes, ' ')
      ensures r.Ok? ==> var final := podman.containers[body.name].body;
                        if second == [] then final == body else Carries(final, body, edits.value)
      ensures OnlyThis(old(podman.containers), podman.containers, body.name, body.hostPort)
      ensures Running(podman.containers, body.name) ==
              LeftRunning(Running(old(podman.containers), body.name), first + (between + second))
    {
      var ok;
      between, second := [], [];
      edits := resolver.edits(specs(readings), ids);
      ok, first := CreateAndStart(body);
      assert between + second == [] && first + (between + second) == first;
      if ok {
        return Ok(""), edits, first, between, second;
      }
      if ids == [] {
        return Err(PodmanFailed), edits, first, between, second;
      }
      ghost var failed := podman.containers;
      r, edits, between, second := RetryTranslated(body, ids);
      if r.Ok? {
        OnlyThisOverwrites(old(podman.containers), failed, body.name, body.hostPort,
                           Container(TranslatedBody(body, edits.value), true));
      }
      OnlyThisTwice(old(podman.containers), failed, podman.containers, body.name, body.hostPort);
      Associative(old(podman.log), first, between + second);
      LeftRunningAppend(Running(old(podman.containers), body.name), first, between + second);
    }

    method PrepareBody(plain: Body, ids: seq<string>) returns (r: Result<Body, Failure>)
      modifies `readings
      ensures r == FirstBody(plain, ids, specs(old(readings)), gpusField, resolver)
      ensures r.Ok? ==> r.value.name == plain.name && r.value.hostPort == plain.hostPort
      ensures readings == if ids == [] then old(readings) else old(readings) + 1
    {
      if ids == [] {
        return Ok(plain);
      }
      var names := WireNames(ids, specs(readings), resolver);
      readings := readings + 1;
      if names.Err? {
        return Err(names.error);
      }
      r := Ok(NamedBody(plain, names.value, gpusField));
    }

    /** The create body for a new container: the least free port, and the devices by name. */
    method WriteBody(name: string, image: string, ids: seq<string>) returns (r: Result<Body, StartError>)
      modifies `readings, podman`calls
      ensures r.Ok? ==> r.value.name == name && LeastFreePort(podman.containers, r.value.hostPort)
      ensures r.Ok? ==> var plain := PlainBody(name, image, r.value.hostPort);
                        FirstBody(plain, ids, specs(old(readings)), gpusField, resolver) == Ok(r.value)
      ensures r.Ok? ==> readings == if ids == [] then old(readings) else old(readings) + 1
      ensures r == Err(NoFreePort) ==> forall p :: firstPort <= p <= lastPort ==> p in PortsUsed(podman.containers)
    {
      var port := AllocateHostPort();
      if port.Err? {
        return Err(port.error);
      }
      var prepared := PrepareBody(PlainBody(name, image, port.value), ids);
      r := if prepared.Ok? then Ok(prepared.value) else Err(Unresolved(prepared.error));
    }

    /** Takes an existing container away; afterwards the name is free. */
    method RemoveOld(name: string) returns (ok: bool, ghost calls: seq<Call>)
      modifies podman
      ensures podman.log == old(podman.log) + calls && IsRemoval(calls, name)
      ensures podman.containers == old(podman.containers) || podman.containers == old(podman.containers) - {name}
      ensures ok ==> podman.containers == old(podman.containers) - {name}
      ensures ok && Running(old(podman.containers), name) ==> calls != [] && calls[0].answer.Done?
      ensures Running(podman.containers, name) == LeftRunning(Running(old(podman.containers), name), calls)
    {
      calls := [];
      var seen := podman.Snapshot();
      if seen.None? {
        return false, calls;
      }
      if name !in seen.value {
        assert podman.containers == podman.containers - {name};
        return true, calls;
      }
      ok, calls := DeleteContainer(name);
    }

    /** Picks a port, writes the body and runs the ladder, for a name that no container has. */
    method Launch(name: string, image: string, ids: seq<string>)
      returns (r: Result<(nat, string), StartError>, ghost first: seq<Call>, ghost between: seq<Call>,
               ghost second: seq<Call>, ghost body: Body, ghost edits: Result<Edits, Failure>)
      requires name !in podman.containers && PortsOk(podman.containers, firstPort, lastPort)
      modifies this`readings, podman
      ensures podman.log == old(podman.log) + (first + (between + second))
      ensures first != [] ==> FirstBody(PlainBody(name, image, body.hostPort), ids, specs(old(readings)), gpusField,
                                        resolver) == Ok(body)
      ensures LadderTrace(Trace([], first, between, second), name, ids, body, edits)
      ensures r.Ok? <==> Succeeded(first) || Succeeded(second)
      ensures r.Ok? ==> r.value.0 == body.hostPort && LeastFreePort(old(podman.containers), body.hostPort)
                        && podman.containers ==
                           old(podman.containers)[name := Container(FinalBody(second, body, edits), true)]
      ensures r.Ok? ==> Boots(FinalBody(second, body, edits), name, image, r.value.0, ids, gpusField, resolver,
                              specs(old(readings)), specs(old(readings) + 1), second != [])
      ensures r.Ok? ==> r.value.1 == if second == [] then "" else Join(edits.value.notes, ' ')
      ensures ids != [] && first != [] && !Succeeded(first) ==> edits == resolver.edits(specs(old(readings) + 1), ids)
      ensures OnlyThis(old(podman.containers), podman.containers, name, body.hostPort)
      ensures PortsOk(podman.containers, firstPort, lastPort)
      ensures Running(podman.containers, name) ==
              LeftRunning(Running(old(podman.containers), name), first + (between + second))
    {
      first, between, second := [], [], [];
      assert first + (between + second) == [];
      body, edits := PlainBody(name, image, firstPort), Ok(NO_EDITS);
      var written := WriteBody(name, image, ids);
      if written.Err? {
        return Err(written.error), first, between, second, body, edits;
      }
      body := written.value;
      var note;
      note, edits, first, between, second := DeliverGpuLadder(written.value, ids);
      PortsKept(old(podman.containers), podman.containers, name, body.hostPort, firstPort, lastPort);
      r := if note.Ok? then Ok((written.value.hostPort, note.value)) else Err(note.error);
      if r.Ok? {
        BootsAsAsked(name, image, body.hostPort, ids, gpusField, resolver, specs(old(readings)),
                     specs(old(readings) + 1), second, body, edits);
      }
    }

    /**
     Puts a new container in the place of the old one. Whatever podman answers: at most one removal, at most two
     attempts, the second only for a GPU, with the translated body, after the first was cleared away. Success leaves
     the new container running on the least free port; after a failure the container runs only if podman never
     carried out a removal of the old one, or carried out a start whose answer got lost. No other container is touched
     and all ports stay distinct.
     */
    method StartContainer(name: string, image: string, ids: seq<string>)
      returns (r: Result<(nat, string), StartError>, ghost t: Trace, ghost body: Body,
               ghost edits: Result<Edits, Failure>)
      requires PortsOk(podman.containers, firstPort, lastPort)
      modifies this`readings, podman
      ensures podman.log == old(podman.log) + t.All() && IsRemoval(t.removal, name)
      ensures t.first != [] ==> FirstBody(PlainBody(name, image, body.hostPort), ids, specs(old(readings)), gpusField,
                                          resolver) == Ok(body)
      ensures LadderTrace(t, name, ids, body, edits)
      ensures r.Ok? <==> Succeeded(t.first) || Succeeded(t.second)
      ensures r.Ok? ==> r.value.0 == body.hostPort && LeastFreePort(old(podman.containers) - {name}, body.hostPort)
                        && podman.containers ==
                           old(podman.containers)[name := Container(FinalBody(t.second, body, edits), true)]
      ensures r.Ok? ==> Boots(FinalBody(t.second, body, edits), name, image, r.value.0, ids, gpusField, resolver,
                              specs(old(readings)), specs(old(readings) + 1), t.second != [])
      ensures r.Ok? ==> r.value.1 == if t.second == [] then "" else Join(edits.value.notes, ' ')
      ensures OnlyThis(old(podman.containers), podman.containers, name, body.hostPort)
      ensures PortsOk(podman.containers, firstPort, lastPort)
      ensures Running(podman.containers, name) == LeftRunning(Running(old(podman.containers), name), t.All())
    {
      t, body, edits := Trace([], [], [], []), PlainBody(name, image, firstPort), Ok(NO_EDITS);
      var ok;
      ghost var removal, first, between, second;
      ok, removal := RemoveOld(name);
      PortsStay(old(podman.containers), name, firstPort, lastPort);
      if !ok {
        t := Trace(removal, [], [], []);
        assert t.All() == removal;
        return Err(PodmanFailed), t, body, edits;
      }
      r, first, between, second, body, edits := Launch(name, image, ids);
      t := Trace(removal, first, between, second);
      Associative(old(podman.log), removal, first + (between + second));
      LeftRunningAppend(Running(old(podman.containers), name), removal, first + (between + second));
      InItsPlace(old(podman.containers), podman.containers, name, body.hostPort,
                 Container(FinalBody(second, body, edits), true));
    }

    method Start(owner: string, name: string, gpuIds: seq<string>)
      returns (r: Result<(nat, string), StartError>, ghost t: Trace, ghost body: Body,
               ghost edits: Result<Edits, Failure>)
      requires PortsOk(podman.containers, firstPort, lastPort)
      modifies this`readings, podman
      ensures PortsOk(podman.containers, firstPort, lastPort)
      ensures var c := ContainerName(owner, name);
              && LadderTrace(t, c, DeviceNames(gpuIds), body, edits)
              && (r.Ok? ==> podman.containers ==
                            old(podman.containers)[c := Container(FinalBody(t.second, body, edits), true)]
                            && Boots(podman.containers[c].body, c, ImageTag(owner, name), r.value.0,
                                         DeviceNames(gpuIds), gpusField, resolver, specs(old(readings)),
                                         specs(old(readings) + 1), t.second != []))
              && (r.Err? ==> (Running(podman.containers, c) <==>
                                StillRunning(Running(old(podman.containers), c), t.All())))
    {
      var c := ContainerName(owner, name);
      r, t, body, edits := StartContainer(c, ImageTag(owner, name), DeviceNames(gpuIds));
      if r.Err? {
        FailedTrace(t, c, DeviceNames(gpuIds), body, edits);
        FailureLeaves(Running(old(podman.containers), c), t.All());
      }
    }

    method Remove(owner: string, name: string) returns (ok: bool)
      requires PortsOk(podman.containers, firstPort, lastPort)
      modifies podman
      ensures PortsOk(podman.containers, firstPort, lastPort)
      ensures podman.containers == old(podman.containers)
              || podman.containers == old(podman.containers) - {ContainerName(owner, name)}
      ensures ok ==> ContainerName(owner, name) !in podman.containers
    {
      ghost var calls;
      PortsStay(podman.containers, ContainerName(owner, name), firstPort, lastPort);
      ok, calls := DeleteContainer(ContainerName(owner, name));
    }
  }

  /** A start podman carried out without the manager hearing of it, and no removal since. */
  ghost predicate LostStart(calls: seq<Call>) {
    exists i :: 0 <= i < |calls| && calls[i].Start? && calls[i].answer == Lost(true)
                && forall j :: i < j < |calls| ==> !(calls[j].Delete? && Applied(calls[j].answer))
  }

  ghost predicate NeverRemoved(calls: seq<Call>) {
    forall c :: c in calls ==> !(c.Delete? && Applied(c.answer))
  }

  /** What can run after a failed start: the old container, if nothing removed it, or one whose start got lost. */
  ghost predicate StillRunning(before: bool, calls: seq<Call>) {
    (before && NeverRemoved(calls)) || LostStart(calls)
  }

  lemma {:induction false} FailureLeaves(before: bool, calls: seq<Call>)
    requires forall c :: c in calls ==> !(c.Start? && c.answer.Done?)
    ensures LeftRunning(before, calls) <==> StillRunning(before, calls)
  {
    if calls != [] {
      var init, last := calls[..|calls| - 1], calls[|calls| - 1];
      FailureLeaves(before, init);
      assert calls == init + [last];
      StillRunningSnoc(before, init, last);
    }
  }

  lemma StillRunningSnoc(before: bool, calls: seq<Call>, c: Call)
    requires !(c.Start? && c.answer.Done?)
    ensures StillRunning(before, calls + [c]) <==>
              if c.Delete? && Applied(c.answer) then false
              else StillRunning(before, calls) || (c.Start? && c.answer == Lost(true))
  {
    var more := calls + [c];
    assert more[|calls|] == c;
    if c.Start? && c.answer == Lost(true) {
      assert LostStart(more);
    } else if LostStart(more) {
      var i :| 0 <= i < |more| && more[i].Start? && more[i].answer == Lost(true)
               && forall j :: i < j < |more| ==> !(more[j].Delete? && Applied(more[j].answer));
      assert i < |calls|;
      assert calls[i] == more[i];
      forall j | i < j < |calls| ensures !(calls[j].Delete? && Applied(calls[j].answer)) {
        assert calls[j] == more[j];
      }
    }
    if LostStart(calls) && !(c.Delete? && Applied(c.answer)) {
      var i :| 0 <= i < |calls| && calls[i].Start? && calls[i].answer == Lost(true)
               && forall j :: i < j < |calls| ==> !(calls[j].Delete? && Applied(calls[j].answer));
      assert more[i] == calls[i];
      assert LostStart(more);
    }
    assert NeverRemoved(more) <==> NeverRemoved(calls) && !(c.Delete? && Applied(c.answer));
  }

  lemma FailedTrace(t: Trace, name: string, ids: seq<string>, body: Body, edits: Result<Edits, Failure>)
    requires IsRemoval(t.removal, name) && LadderTrace(t, name, ids, body, edits)
    requires !Succeeded(t.first) && !Succeeded(t.second)
    ensures forall c :: c in t.All() ==> !(c.Start? && c.answer.Done?)
  {
  }

  lemma {:induction false} CreatesAppend(calls: seq<Call>, more: seq<Call>)
    ensures Creates(calls + more) == Creates(calls) + Creates(more)
  {
    if more == [] {
      assert calls + more == calls;
    } else {
      CreatesAppend(calls, more[..|more| - 1]);
      assert (calls + more)[..|calls + more| - 1] == calls + more[..|more| - 1];
    }
  }

  lemma OneCreate(calls: seq<Call>, body: Body)
    requires IsAttempt(calls, body)
    ensures Creates(calls) == 1
  {
    assert calls[..1] == [calls[0]] && calls[..1][..0] == [];
    assert Creates([calls[0]]) == 1;
    assert |calls| == 2 ==> calls[..|calls| - 1] == [calls[0]];
  }

  lemma NoCreate(calls: seq<Call>, name: string)
    requires IsRemoval(calls, name)
    ensures Creates(calls) == 0
  {
    if calls != [] {
      assert calls[0] in calls && calls[..0] == [];
    }
  }

  /** No call names another container. */
  lemma OneContainer(t: Trace, name: string, ids: seq<string>, body: Body, edits: Result<Edits, Failure>)
    requires IsRemoval(t.removal, name) && LadderTrace(t, name, ids, body, edits)
    ensures forall c :: c in t.All() ==> Target(c) == name
  {
    forall c | c in t.All() ensures Target(c) == name {
      assert c in t.removal || c in t.first || c in t.between || c in t.second;
    }
  }

  /** At most two creates, and two only with a GPU assigned and after the first container was cleared away. */
  lemma AtMostTwoCreates(t: Trace, name: string, ids: seq<string>, body: Body, edits: Result<Edits, Failure>)
    requires IsRemoval(t.removal, name) && LadderTrace(t, name, ids, body, edits)
    ensures Creates(t.All()) <= 2
    ensures Creates(t.All()) == 2 ==> ids != [] && !Succeeded(t.first) && t.between == [Delete(name, Done)]
  {
    CreatesAppend(t.removal, t.first + (t.between + t.second));
    CreatesAppend(t.first, t.between + t.second);
    CreatesAppend(t.between, t.second);
    NoCreate(t.removal, name);
    NoCreate(t.between, name);
    if t.first != [] {
      OneCreate(t.first, body);
    }
    if t.second != [] {
      OneCreate(t.second, TranslatedBody(body, edits.value));
      assert t.between[0] in t.between;
    }
  }

  /** The calls of the two attempts, and what each of them sent. */
  ghost predicate LadderTrace(t: Trace, name: string, ids: seq<string>, body: Body, edits: Result<Edits, Failure>) {
    && IsRemoval(t.between, name)
    && (t.first != [] ==> IsAttempt(t.first, body) && body.name == name)
    && (t.first == [] || Succeeded(t.first) || ids == [] ==> t.between == t.second == [])
    && (t.second != [] ==> edits.Ok? && t.between != [] && t.between[0].answer.Done?
                           && IsAttempt(t.second, TranslatedBody(body, edits.value)))
  }

  /** The body sent last. */
  ghost function FinalBody(second: seq<Call>, body: Body, edits: Result<Edits, Failure>): Body {
    if second != [] && edits.Ok? then TranslatedBody(body, edits.value) else body
  }

  lemma InItsPlace(before: Containers, after: Containers, name: string, port: nat, c: Container)
    requires OnlyThis(before - {name}, after, name, port)
    ensures OnlyThis(before, after, name, port)
    ensures (before - {name})[name := c] == before[name := c]
  {
  }

  lemma PortsStay(cs: Containers, name: string, first: nat, last: nat)
    requires PortsOk(cs, first, last)
    ensures PortsOk(cs - {name}, first, last)
  {
  }

  lemma PortsKept(before: Containers, after: Containers, name: string, port: nat, first: nat, last: nat)
    requires PortsOk(before, first, last) && port !in PortsUsed(before) && first <= port <= last
    requires OnlyThis(before, after, name, port)
    ensures PortsOk(after, first, last)
  {
    forall n | n in after && n != name ensures after[n].body.hostPort in PortsUsed(before) {
      assert before[n] == after[n];
    }
  }

  /** Nothing but this container changes; if it is there afterwards, its port is this one or the one it had. */
  ghost predicate OnlyThis(before: Containers, after: Containers, name: string, port: nat) {
    && (forall n :: n != name ==> (n in after <==> n in before))
    && (forall n :: n != name && n in after ==> after[n] == before[n])
    && (name in after ==> after[name].body.hostPort == port
                          || (name in before && after[name].body.hostPort == before[name].body.hostPort))
  }

  lemma OnlyThisOverwrites(before: Containers, after: Containers, name: string, port: nat, c: Container)
    requires OnlyThis(before, after, name, port)
    ensures after[name := c] == before[name := c]
  {
  }

  lemma OnlyThisTwice(before: Containers, middle: Containers, after: Containers, name: string, port: nat)
    requires OnlyThis(before, middle, name, port) && OnlyThis(middle, after, name, port)
    ensures OnlyThis(before, after, name, port)
  {
  }

  lemma LeftRunningSnoc(before: bool, calls: seq<Call>, c: Call)
    ensures LeftRunning(before, calls + [c]) ==
            match c
            case Create(_, _) => LeftRunning(before, calls)
            case Start(_, answer) => LeftRunning(before, calls) || Applied(answer)
            case Delete(_, answer) => LeftRunning(before, calls) && !Applied(answer)
  {
    assert (calls + [c])[..|calls|] == calls;
  }

  lemma {:induction false} LeftRunningAppend(before: bool, calls: seq<Call>, more: seq<Call>)
    ensures LeftRunning(before, calls + more) == LeftRunning(LeftRunning(before, calls), more)
  {
    if more == [] {
      assert calls + more == calls;
    } else {
      LeftRunningAppend(before, calls, more[..|more| - 1]);
      assert (calls + more)[..|calls + more| - 1] == calls + more[..|more| - 1];
    }
  }
}
