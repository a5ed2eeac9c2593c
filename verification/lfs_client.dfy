/**
 The command line client's LFS upload, composed with the server: partition, deduplicate, batch, stream, commit pointers.
 Other clients use the server in between, and the local files may change between hashing and sending.
 */
module LfsClient {
  import opened Prelude
  import opened LfsWire
  import Dedup
  import LfsPointer
  import LfsServer
  import ObjectStore
  import Quota

  // ----- splitting the local files -----

  /** A local file: its size when listed, and the bytes read when it was hashed. */
  datatype LocalFile = LocalFile(path: string, listedSize: nat, content: Bytes)

  datatype LargeFile = LargeFile(path: string, oid: Oid, size: nat)

  datatype Partition = Partition(small: seq<string>, large: seq<LargeFile>)

  datatype UploadError = SizeChanged | BatchRefused | ObjectErrors(count: nat) | NoSource | PutRefused(status: nat)

  function SmallPaths(files: seq<LocalFile>, cap: int): seq<string> {
    if files == [] then []
    else
      var before, f := SmallPaths(files[..|files| - 1], cap), files[|files| - 1];
      if f.listedSize <= cap then before + [f.path] else before
  }

  function LargeOf(sha256: Bytes -> Oid, files: seq<LocalFile>, cap: int): seq<LargeFile> {
    if files == [] then []
    else
      var before, f := LargeOf(sha256, files[..|files| - 1], cap), files[|files| - 1];
      if f.listedSize <= cap then before else before + [LargeFile(f.path, sha256(f.content), |f.content|)]
  }

  /** Every file lands in exactly one of the lists, by its size when listed, and both keep the order. */
  lemma EachFileOnce(sha256: Bytes -> Oid, before: seq<LocalFile>, f: LocalFile, cap: int)
    ensures SmallPaths([], cap) == [] && LargeOf(sha256, [], cap) == []
    ensures SmallPaths(before + [f], cap) == SmallPaths(before, cap) + if f.listedSize <= cap then [f.path] else []
    ensures LargeOf(sha256, before + [f], cap)
            == LargeOf(sha256, before, cap)
               + if f.listedSize > cap then [LargeFile(f.path, sha256(f.content), |f.content|)] else []
  {
    assert (before + [f])[..|before|] == before;
  }

  ghost predicate LargestFirst(items: seq<LargeFile>) {
    forall i, j :: 0 <= i < j < |items| ==> items[i].size >= items[j].size
  }

  function InsertBySize(item: LargeFile, items: seq<LargeFile>): (r: seq<LargeFile>)
    ensures multiset(r) == multiset(items) + multiset{item}
  {
    if items == [] || items[|items| - 1].size >= item.size then items + [item]
    else
      assert items == items[..|items| - 1] + [items[|items| - 1]];
      InsertBySize(item, items[..|items| - 1]) + [items[|items| - 1]]
  }

  function SortBySize(items: seq<LargeFile>): (r: seq<LargeFile>)
    ensures multiset(r) == multiset(items)
  {
    if items == [] then []
    else
      assert items == items[..|items| - 1] + [items[|items| - 1]];
      InsertBySize(items[|items| - 1], SortBySize(items[..|items| - 1]))
  }

  lemma {:induction false} InsertKeepsOrder(item: LargeFile, items: seq<LargeFile>)
    requires LargestFirst(items)
    ensures LargestFirst(InsertBySize(item, items))
  {
    if items != [] && items[|items| - 1].size < item.size {
      var init, last := items[..|items| - 1], items[|items| - 1];
      var before := InsertBySize(item, init);
      InsertKeepsOrder(item, init);
      assert forall x :: x in init ==> x.size >= last.size;
      SmallestLast(item, init, last, before);
    }
  }

  lemma SmallestLast(item: LargeFile, init: seq<LargeFile>, last: LargeFile, before: seq<LargeFile>)
    requires multiset(before) == multiset(init) + multiset{item} && LargestFirst(before)
    requires item.size > last.size && forall x :: x in init ==> x.size >= last.size
    ensures LargestFirst(before + [last])
  {
    forall i | 0 <= i < |before| ensures before[i].size >= last.size {
      assert before[i] in multiset(before);
    }
  }

  lemma {:induction false} SortBySizeOrders(items: seq<LargeFile>)
    ensures LargestFirst(SortBySize(items))
  {
    if items != [] {
      SortBySizeOrders(items[..|items| - 1]);
      InsertKeepsOrder(items[|items| - 1], SortBySize(items[..|items| - 1]));
    }
  }

  /**
   Small files keep their order; large files are hashed and put largest first. A large file whose size changed between
   listing and hashing stops the upload.
   */
  method PartitionFiles(sha256: Bytes -> Oid, files: seq<LocalFile>, cap: int)
    returns (r: Result<Partition, UploadError>)
    ensures r.Ok? <==> forall f :: f in files && f.listedSize > cap ==> |f.content| == f.listedSize
    ensures r.Err? ==> r.error == SizeChanged
    ensures r.Ok? ==> && r.value.small == SmallPaths(files, cap)
                      && multiset(r.value.large) == multiset(LargeOf(sha256, files, cap))
                      && LargestFirst(r.value.large)
  {
    var small: seq<string>, large: seq<LargeFile> := [], [];
    for i := 0 to |files|
      invariant small == SmallPaths(files[..i], cap) && large == LargeOf(sha256, files[..i], cap)
      invariant forall f :: f in files[..i] && f.listedSize > cap ==> |f.content| == f.listedSize
    {
      var f := files[i];
      assert files[..i + 1][..i] == files[..i] && files[..i + 1] == files[..i] + [f];
      if f.listedSize <= cap {
        small := small + [f.path];
        continue;
      }
      if |f.content| != f.listedSize {
        assert f in files;
        return Err(SizeChanged);
      }
      large := large + [LargeFile(f.path, sha256(f.content), f.listedSize)];
    }
    assert files[..|files|] == files;
    SortBySizeOrders(large);
    return Ok(Partition(small, SortBySize(large)));
  }

  // ----- one batch entry per distinct object -----

  function KeyOf(item: LargeFile): BatchObject {
    BatchObject(item.oid, item.size)
  }

  function Keys(items: seq<LargeFile>): (r: seq<BatchObject>)
    ensures |r| == |items| && forall i :: 0 <= i < |r| ==> r[i] == KeyOf(items[i])
  {
    if items == [] then [] else Keys(items[..|items| - 1]) + [KeyOf(items[|items| - 1])]
  }

  function PathsFor(items: seq<LargeFile>, key: BatchObject): seq<string> {
    if items == [] then []
    else
      var before, last := PathsFor(items[..|items| - 1], key), items[|items| - 1];
      if KeyOf(last) == key then before + [last.path] else before
  }

  datatype DedupMap = DedupMap(key: BatchObject, paths: seq<string>)

  /** The dictionary after some items have been seen: where each key stands among the entries. */
  ghost predicate Placed(keys: seq<BatchObject>, seen: map<BatchObject, nat>, entries: seq<BatchObject>) {
    && entries == Dedup.FirstOccurrences(keys)
    && (forall k :: k in seen <==> k in keys)
    && (forall k :: k in seen ==> seen[k] < |entries| && entries[seen[k]] == k)
    && (forall j :: 0 <= j < |entries| ==> entries[j] in seen && seen[entries[j]] == j)
  }

  ghost predicate Listed(items: seq<LargeFile>, entries: seq<BatchObject>, pathLists: seq<seq<string>>) {
    |pathLists| == |entries| && forall j :: 0 <= j < |entries| ==> pathLists[j] == PathsFor(items, entries[j])
  }

  lemma PlacedOneMore(keys: seq<BatchObject>, key: BatchObject, seen: map<BatchObject, nat>, entries: seq<BatchObject>)
    requires Placed(keys, seen, entries)
    ensures if key in seen then Placed(keys + [key], seen, entries)
            else Placed(keys + [key], seen[key := |entries|], entries + [key])
  {
    assert (keys + [key])[..|keys|] == keys;
  }

  lemma KeysOneMore(items: seq<LargeFile>, item: LargeFile)
    ensures Keys(items + [item]) == Keys(items) + [KeyOf(item)]
    ensures forall key :: PathsFor(items + [item], key)
                          == if KeyOf(item) == key then PathsFor(items, key) + [item.path] else PathsFor(items, key)
  {
    assert (items + [item])[..|items|] == items;
  }

  lemma ListedNew(items: seq<LargeFile>, item: LargeFile, entries: seq<BatchObject>, pathLists: seq<seq<string>>)
    requires Listed(items, entries, pathLists) && KeyOf(item) !in entries && KeyOf(item) !in Keys(items)
    ensures Listed(items + [item], entries + [KeyOf(item)], pathLists + [[item.path]])
  {
    KeysOneMore(items, item);
    NoPathsYet(items, KeyOf(item));
  }

  lemma ListedAgain(items: seq<LargeFile>, item: LargeFile, entries: seq<BatchObject>, pathLists: seq<seq<string>>,
                    at: nat)
    requires Listed(items, entries, pathLists) && at < |entries| && entries[at] == KeyOf(item)
    requires forall j :: 0 <= j < |entries| && j != at ==> entries[j] != KeyOf(item)
    ensures Listed(items + [item], entries, pathLists[at := pathLists[at] + [item.path]])
  {
    KeysOneMore(items, item);
  }

  /** The loop of the deduplication: entries in order of first appearance, and the paths of each. */
  method CollectEntries(items: seq<LargeFile>) returns (entries: seq<BatchObject>, pathLists: seq<seq<string>>)
    ensures entries == Dedup.FirstOccurrences(Keys(items)) && Listed(items, entries, pathLists)
  {
    var seen: map<BatchObject, nat> := map[];
    pathLists := [];
    entries := [];
    for i := 0 to |items|
      invariant Placed(Keys(items[..i]), seen, entries) && Listed(items[..i], entries, pathLists)
    {
      var item := items[i];
      var key := KeyOf(item);
      assert items[..i + 1] == items[..i] + [item];
      KeysOneMore(items[..i], item);
      PlacedOneMore(Keys(items[..i]), key, seen, entries);
      if key !in seen {
        ListedNew(items[..i], item, entries, pathLists);
        seen := seen[key := |entries|];
        entries := entries + [key];
        pathLists := pathLists + [[item.path]];
      } else {
        var at := seen[key];
        ListedAgain(items[..i], item, entries, pathLists, at);
        pathLists := pathLists[at := pathLists[at] + [item.path]];
      }
    }
    assert items[..|items|] == items;
  }

  /** One entry per distinct object in order of first appearance, and for each the paths that share it. */
  method DedupeObjects(items: seq<LargeFile>) returns (entries: seq<BatchObject>, maps: seq<DedupMap>)
    ensures entries == Dedup.FirstOccurrences(Keys(items))
    ensures |maps| == |entries|
    ensures forall i :: 0 <= i < |maps| ==> maps[i] == DedupMap(entries[i], PathsFor(items, entries[i]))
  {
    var pathLists;
    entries, pathLists := CollectEntries(items);
    maps := [];
    for i := 0 to |entries|
      invariant |maps| == i && forall j :: 0 <= j < i ==> maps[j] == DedupMap(entries[j], PathsFor(items, entries[j]))
    {
      maps := maps + [DedupMap(entries[i], pathLists[i])];
    }
  }

  lemma {:induction false} NoPathsYet(items: seq<LargeFile>, key: BatchObject)
    requires key !in Keys(items)
    ensures PathsFor(items, key) == []
  {
    if items != [] {
      assert Keys(items)[|items| - 1] in Keys(items);
      assert forall k :: k in Keys(items[..|items| - 1]) ==> k in Keys(items);
      NoPathsYet(items[..|items| - 1], key);
    }
  }

  // ----- the upload -----

  /** What the client and its disk contribute to one PUT; any bytes may be on disk by then. */
  datatype PutInput = PutInput(length: Option<int>, events: seq<LfsServer.BodyEvent>, refusal: Option<nat>)

  function Oids(items: seq<LargeFile>): (r: seq<string>)
    ensures |r| == |items| && forall i :: 0 <= i < |r| ==> r[i] == items[i].oid
  {
    if items == [] then [] else Oids(items[..|items| - 1]) + [items[|items| - 1].oid]
  }

  function PathsOf(items: seq<LargeFile>, oid: string): seq<string> {
    if items == [] then []
    else
      var before, last := PathsOf(items[..|items| - 1], oid), items[|items| - 1];
      if last.oid == oid then before + [last.path] else before
  }

  ghost predicate Grouped(items: seq<LargeFile>, m: map<string, seq<string>>) {
    && (forall oid :: oid in m <==> oid in Oids(items))
    && (forall oid :: oid in m ==> m[oid] == PathsOf(items, oid) && m[oid] != [])
  }

  lemma {:induction false} NoPathsOf(items: seq<LargeFile>, oid: string)
    requires oid !in Oids(items)
    ensures PathsOf(items, oid) == []
  {
    if items != [] {
      assert Oids(items)[|items| - 1] in Oids(items);
      assert forall o :: o in Oids(items[..|items| - 1]) ==> o in Oids(items);
      NoPathsOf(items[..|items| - 1], oid);
    }
  }

  lemma GroupedOneMore(items: seq<LargeFile>, item: LargeFile, m: map<string, seq<string>>)
    requires Grouped(items, m)
    ensures Grouped(items + [item], m[item.oid := (if item.oid in m then m[item.oid] else []) + [item.path]])
  {
    var more := items + [item];
    assert more[..|items|] == items;
    assert Oids(more) == Oids(items) + [item.oid];
    if item.oid !in m {
      NoPathsOf(items, item.oid);
    }
  }

  method PathsByOid(items: seq<LargeFile>) returns (m: map<string, seq<string>>)
    ensures forall oid :: oid in m <==> oid in Oids(items)
    ensures forall oid :: oid in m ==> m[oid] == PathsOf(items, oid) && m[oid] != []
  {
    m := map[];
    for i := 0 to |items|
      invariant Grouped(items[..i], m)
    {
      var item := items[i];
      assert items[..i + 1] == items[..i] + [item];
      GroupedOneMore(items[..i], item, m);
      m := m[item.oid := (if item.oid in m then m[item.oid] else []) + [item.path]];
    }
    assert items[..|items|] == items;
  }

  ghost predicate Stored(service: LfsServer.LfsService, oid: string)
    reads service.store
  {
    && |oid| == 64 && service.store.HasObject(oid)
    && service.store.sha256(service.store.files[ObjectStore.ObjectPath(oid)]) == oid
  }

  /** One PUT: unless it is refused, the object is stored; what was stored stays. */
  method SendObject(service: LfsServer.LfsService, owner: Quota.UserId, action: BatchAction, input: PutInput)
    returns (status: nat)
    requires ObjectStore.SoundFiles(service.store.sha256, service.store.files)
    requires IsOid(action.oid) && LfsServer.TargetOf(action.href) == action.oid
    requires input.refusal.Some? ==> input.refusal.value >= 400
    modifies service.store`files, service.quota
    ensures ObjectStore.SoundFiles(service.store.sha256, service.store.files)
    ensures LfsServer.Grows(old(service.store.files), service.store.files)
    ensures status < 400 ==> Stored(service, action.oid)
  {
    var oid := LfsServer.TargetOf(action.href);
    status := service.HandlePut(oid, owner, input.refusal, input.length, input.events);
    PutEffect(service.store.sha256, old(service.store.files), service.store.files, action.oid,
              Concat(LfsServer.Received(input.events, service.maxObjectBytes, 0).chunks), status);
  }

  /** Sends every object the server asked for, stopping at the first refusal. */
  method UploadAll(service: LfsServer.LfsService, owner: Quota.UserId, actions: seq<BatchAction>,
                   pathsByOid: map<string, seq<string>>, puts: nat -> PutInput)
    returns (failure: Option<UploadError>)
    requires ObjectStore.SoundFiles(service.store.sha256, service.store.files)
    requires forall a :: a in actions ==> IsOid(a.oid) && LfsServer.TargetOf(a.href) == a.oid
    requires forall k :: puts(k).refusal.Some? ==> puts(k).refusal.value >= 400
    modifies service.store`files, service.quota
    ensures ObjectStore.SoundFiles(service.store.sha256, service.store.files)
    ensures LfsServer.Grows(old(service.store.files), service.store.files)
    ensures failure == None ==> forall a :: a in actions ==> Stored(service, a.oid)
    ensures failure == Some(NoSource) ==> exists a :: a in actions && a.oid !in pathsByOid
  {
    for i := 0 to |actions|
      invariant ObjectStore.SoundFiles(service.store.sha256, service.store.files)
      invariant LfsServer.Grows(old(service.store.files), service.store.files)
      invariant forall a :: a in actions[..i] ==> Stored(service, a.oid)
    {
      var action := actions[i];
      assert action in actions;
      if action.oid !in pathsByOid {
        return Some(NoSource);
      }
      service.OthersRun();
      var status := SendObject(service, owner, action, puts(i));
      if status >= 400 {
        return Some(PutRefused(status));
      }
      assert actions[..i + 1] == actions[..i] + [action];
    }
    assert actions[..|actions|] == actions;
    return None;
  }

  lemma PutEffect(sha256: Bytes -> Oid, files: map<string, Bytes>, files': map<string, Bytes>, oid: Oid, content: Bytes,
                  status: nat)
    requires ObjectStore.SoundFiles(sha256, files)
    requires status == LfsServer.OK ==>
               && ObjectStore.ObjectPath(oid) !in files && sha256(content) == oid
               && files' == files[ObjectStore.ObjectPath(oid) := content] - {ObjectStore.TmpPath(oid)}
    requires status != LfsServer.OK ==> files' == files || files' == files - {ObjectStore.TmpPath(oid)}
    ensures ObjectStore.SoundFiles(sha256, files') && LfsServer.Grows(files, files')
    ensures status == LfsServer.OK ==> ObjectStore.ObjectPath(oid) in files'
  {
    ObjectStore.LowerValid(oid);
    LfsServer.PutGrows(sha256, files, oid, content);
  }

  function PointersFor(large: seq<LargeFile>): map<string, string> {
    if large == [] then map[]
    else
      var before, last := PointersFor(large[..|large| - 1]), large[|large| - 1];
      if last.oid in before then before else before[last.oid := LfsPointer.PointerText(last.oid, last.size)]
  }

  /** Of several files with one id the first decides. */
  lemma {:induction false} FirstFileDecides(large: seq<LargeFile>, i: nat)
    requires i < |large| && forall j :: 0 <= j < i ==> large[j].oid != large[i].oid
    ensures large[i].oid in PointersFor(large)
    ensures PointersFor(large)[large[i].oid] == LfsPointer.PointerText(large[i].oid, large[i].size)
  {
    if i < |large| - 1 {
      FirstFileDecides(large[..|large| - 1], i);
    } else {
      OnlyTheirIds(large[..|large| - 1], large[i].oid);
    }
  }

  lemma {:induction false} OnlyTheirIds(large: seq<LargeFile>, oid: Oid)
    requires forall j :: 0 <= j < |large| ==> large[j].oid != oid
    ensures oid !in PointersFor(large)
  {
    if large != [] {
      OnlyTheirIds(large[..|large| - 1], oid);
    }
  }

  /** The batch holds exactly the keys of the large files, and the server asks for, or has, every one of them. */
  ghost predicate Answered(service: LfsServer.LfsService, batch: seq<BatchObject>, responses: seq<BatchResponse>)
    reads service.store
  {
    && |responses| == |batch|
    && forall i :: 0 <= i < |batch| ==>
         && responses[i].oid == batch[i].oid
         && (responses[i].error.None? && responses[i].upload.None? ==> Stored(service, batch[i].oid))
         && (responses[i].upload.Some? ==>
               && responses[i].error.None? && responses[i].upload.value.href != ""
               && LfsServer.TargetOf(responses[i].upload.value.href) == batch[i].oid)
  }

  lemma {:induction false} EveryActionIsForTheBatch(responses: seq<BatchResponse>, a: BatchAction)
    requires a in ActionsOf(ToWireAll(responses))
    ensures exists i :: 0 <= i < |responses| && responses[i].oid == a.oid && responses[i].upload.Some?
                        && responses[i].upload.value.href == a.href
  {
    var wire := ToWireAll(responses);
    ListsHoldNothingElse(wire);
    var i :| 0 <= i < |wire| && Read(wire[i]) == Wanted(a);
    WireRoundTrip(responses[i]);
    assert responses[i].oid == a.oid && responses[i].upload.Some? && responses[i].upload.value.href == a.href;
  }

  /** The object is in the store already, or one of the actions is for it. */
  ghost predicate HandledBy(service: LfsServer.LfsService, actions: seq<BatchAction>, oid: string)
    reads service.store
  {
    Stored(service, oid) || exists a :: a in actions && a.oid == oid
  }

  /** The response carried no errors and asked for exactly these uploads. */
  ghost predicate CleanResponse(responses: seq<BatchResponse>, wire: seq<RawEntry>, actions: seq<BatchAction>) {
    wire == ToWireAll(responses) && ErrorsOf(wire) == [] && actions == ActionsOf(wire)
  }

  lemma EveryEntryIsHandled(service: LfsServer.LfsService, batch: seq<BatchObject>, responses: seq<BatchResponse>,
                            wire: seq<RawEntry>, actions: seq<BatchAction>, i: nat)
    requires Answered(service, batch, responses) && i < |batch|
    requires CleanResponse(responses, wire, actions)
    ensures HandledBy(service, actions, batch[i].oid)
  {
    EveryEntryIsAnswered(wire, i);
    assert wire[i] == ToWire(responses[i]);
  }

  /** The batch request: what the server answers, ready for the client to sort. */
  method RequestBatch(service: LfsServer.LfsService, actor: Quota.UserId, userExists: bool, owner: string, repo: string,
                      batch: seq<BatchObject>)
    returns (responses: seq<BatchResponse>)
    requires ObjectStore.SoundFiles(service.store.sha256, service.store.files)
    requires Dedup.FirstOccurrences(batch) == batch
    requires forall o :: o in batch ==> IsOid(o.oid)
    modifies service.quota
    ensures Answered(service, batch, responses)
  {
    responses := service.HandleUploadBatch(owner, repo, batch, actor, userExists);
    forall i | 0 <= i < |batch|
      ensures responses[i].error.None? && responses[i].upload.None? ==> Stored(service, batch[i].oid)
      ensures responses[i].upload.Some? ==> responses[i].error.None? && responses[i].upload.value.href != ""
      ensures responses[i].upload.Some? ==> LfsServer.TargetOf(responses[i].upload.value.href) == batch[i].oid
    {
      assert batch[i] in batch;
      var oid: Oid := batch[i].oid;
      LfsServer.OneAnswer(responses[i], batch[i], old(service.SituationFor(oid, actor, userExists)));
      assert '/' !in oid;
    }
  }

  /** An action the client found is for one of its own files, and its address leads to that file's object. */
  lemma ActionIsForFile(service: LfsServer.LfsService, large: seq<LargeFile>, batch: seq<BatchObject>,
                        responses: seq<BatchResponse>, wire: seq<RawEntry>, actions: seq<BatchAction>, a: BatchAction)
    requires Covers(large, batch) && Answered(service, batch, responses)
    requires CleanResponse(responses, wire, actions) && a in actions
    ensures ForFile(large, a)
  {
    EveryActionIsForTheBatch(responses, a);
    var i :| 0 <= i < |responses| && responses[i].oid == a.oid && responses[i].upload.Some?
             && responses[i].upload.value.href == a.href;
    assert batch[i] in batch;
    KeyHasFile(large, batch[i]);
  }

  lemma KeyHasFile(large: seq<LargeFile>, o: BatchObject)
    requires o in Keys(large)
    ensures o.oid in Oids(large)
  {
    var k :| 0 <= k < |large| && Keys(large)[k] == o;
    assert Oids(large)[k] == o.oid;
  }

  ghost predicate ForFile(large: seq<LargeFile>, a: BatchAction) {
    IsOid(a.oid) && LfsServer.TargetOf(a.href) == a.oid && a.oid in Oids(large)
  }

  /** The batch asks for the objects of exactly these files. */
  ghost predicate Covers(large: seq<LargeFile>, batch: seq<BatchObject>) {
    && (forall f :: f in large ==> KeyOf(f) in batch)
    && (forall o :: o in batch ==> IsOid(o.oid) && o in Keys(large))
  }

  /** Once the response reports no errors, every file's object is stored or asked for, and nothing else is asked for. */
  lemma BatchOutcome(service: LfsServer.LfsService, large: seq<LargeFile>, batch: seq<BatchObject>,
                     responses: seq<BatchResponse>, wire: seq<RawEntry>, actions: seq<BatchAction>)
    requires Covers(large, batch) && Answered(service, batch, responses)
    requires CleanResponse(responses, wire, actions)
    ensures forall a :: a in actions ==> ForFile(large, a)
    ensures forall f :: f in large ==> HandledBy(service, actions, f.oid)
  {
    forall a | a in actions ensures ForFile(large, a) {
      ActionIsForFile(service, large, batch, responses, wire, actions, a);
    }
    forall f | f in large ensures HandledBy(service, actions, f.oid) {
      assert KeyOf(f) in batch;
      var i :| 0 <= i < |batch| && batch[i] == KeyOf(f);
      EveryEntryIsHandled(service, batch, responses, wire, actions, i);
    }
  }

  method BatchFor(large: seq<LargeFile>) returns (batch: seq<BatchObject>)
    ensures Dedup.FirstOccurrences(batch) == batch && Covers(large, batch)
  {
    var maps;
    batch, maps := DedupeObjects(large);
    BatchCoversFiles(large, batch);
  }

  /** The batch exchange: without errors every file is stored or asked for, and nothing else is asked for. */
  method BatchUpload(service: LfsServer.LfsService, actor: Quota.UserId, userExists: bool, owner: string, repo: string,
                     large: seq<LargeFile>, batch: seq<BatchObject>)
    returns (actions: seq<BatchAction>, errors: seq<BatchObjectError>, present: seq<string>)
    requires ObjectStore.SoundFiles(service.store.sha256, service.store.files)
    requires Dedup.FirstOccurrences(batch) == batch && Covers(large, batch)
    modifies service.quota
    ensures errors == [] ==> (forall a :: a in actions ==> ForFile(large, a))
                             && forall f :: f in large ==> HandledBy(service, actions, f.oid)
  {
    var responses := RequestBatch(service, actor, userExists, owner, repo, batch);
    var wire := ToWireAll(responses);
    actions, errors, present := SplitResponse(wire);
    if errors == [] {
      BatchOutcome(service, large, batch, responses, wire, actions);
    }
  }

  /**
   The upload of the large files. If it returns normally, every one of their objects is in the server's store under its
   own hash, whatever other clients did meanwhile and whatever bytes the local files held by the time they were sent.
   The server never asks for an object that has no local source.
   */
  method RunLfsUpload(service: LfsServer.LfsService, actor: Quota.UserId, userExists: bool, ownerId: Quota.UserId,
                      owner: string, repo: string, large: seq<LargeFile>, batchRefused: bool, puts: nat -> PutInput)
    returns (r: Result<map<string, string>, UploadError>)
    requires ObjectStore.SoundFiles(service.store.sha256, service.store.files)
    requires forall k :: puts(k).refusal.Some? ==> puts(k).refusal.value >= 400
    modifies service.store`files, service.quota
    ensures ObjectStore.SoundFiles(service.store.sha256, service.store.files)
    ensures LfsServer.Grows(old(service.store.files), service.store.files)
    ensures r.Ok? ==> r.value == PointersFor(large) && forall f :: f in large ==> Stored(service, f.oid)
    ensures r != Err(NoSource)
  {
    if large == [] {
      return Ok(map[]);
    }
    var batch := BatchFor(large);
    if batchRefused {
      return Err(BatchRefused);
    }
    service.OthersRun();
    var actions, errors, present := BatchUpload(service, actor, userExists, owner, repo, large, batch);
    if errors != [] {
      return Err(ObjectErrors(|errors|));
    }
    var failure := SendWanted(service, ownerId, large, actions, puts);
    if failure.Some? {
      return Err(failure.value);
    }
    return Ok(PointersFor(large));
  }

  /** Sends what is wanted; afterwards every file's object is stored, unless something was refused. */
  method SendWanted(service: LfsServer.LfsService, ownerId: Quota.UserId, large: seq<LargeFile>,
                    actions: seq<BatchAction>, puts: nat -> PutInput)
    returns (failure: Option<UploadError>)
    requires ObjectStore.SoundFiles(service.store.sha256, service.store.files)
    requires forall k :: puts(k).refusal.Some? ==> puts(k).refusal.value >= 400
    requires forall a :: a in actions ==> ForFile(large, a)
    requires forall f :: f in large ==> HandledBy(service, actions, f.oid)
    modifies service.store`files, service.quota
    ensures ObjectStore.SoundFiles(service.store.sha256, service.store.files)
    ensures LfsServer.Grows(old(service.store.files), service.store.files)
    ensures failure == None ==> forall f :: f in large ==> Stored(service, f.oid)
    ensures failure != Some(NoSource)
  {
    var pathsByOid := PathsByOid(large);
    failure := None;
    if actions != [] {
      failure := UploadAll(service, ownerId, actions, pathsByOid, puts);
    }
    if failure == None {
      forall f | f in large ensures Stored(service, f.oid) {
        assert old(HandledBy(service, actions, f.oid));
      }
    }
  }

  lemma BatchCoversFiles(large: seq<LargeFile>, batch: seq<BatchObject>)
    requires batch == Dedup.FirstOccurrences(Keys(large))
    ensures Dedup.FirstOccurrences(batch) == batch
    ensures Covers(large, batch)
  {
    Dedup.FirstOccurrencesExact(Keys(large));
    Dedup.DedupIsIdempotent(Keys(large));
    forall f | f in large ensures KeyOf(f) in batch {
      var i :| 0 <= i < |large| && large[i] == f;
      assert Keys(large)[i] in Keys(large);
    }
    forall o | o in batch ensures IsOid(o.oid) && o in Keys(large) {
      var i :| 0 <= i < |Keys(large)| && Keys(large)[i] == o;
    }
  }

  // ----- the commit -----

  datatype PointerFile = PointerFile(path: string, name: string, text: string)

  /** One pointer per distinct local path, in order. */
  method PointerHandles(large: seq<LargeFile>, display: (string, nat) -> string) returns (handles: seq<PointerFile>)
    ensures forall h :: h in handles ==>
              exists f :: f in large && h.path == f.path && h.text == LfsPointer.PointerText(f.oid, f.size)
    ensures forall f :: f in large ==> exists h :: h in handles && h.path == f.path
    ensures forall i, j :: 0 <= i < j < |handles| ==> handles[i].path != handles[j].path
    ensures forall i :: 0 <= i < |handles| ==> handles[i].name == display(handles[i].path, i)
  {
    handles := [];
    var seenPaths: set<string> := {};
    for i := 0 to |large|
      invariant FromLarge(large, handles) && Labelled(handles, display)
      invariant forall f :: f in large[..i] ==> f.path in seenPaths
      invariant forall p :: p in seenPaths <==> exists h :: h in handles && h.path == p
    {
      var item := large[i];
      assert large[..i + 1] == large[..i] + [item];
      if item.path in seenPaths {
        continue;
      }
      var handle := PointerFile(item.path, display(item.path, |handles|), LfsPointer.PointerText(item.oid, item.size));
      OneMoreHandle(large, item, handles, handle, display);
      seenPaths := seenPaths + {item.path};
      handles := handles + [handle];
      assert handle in handles;
    }
    assert large[..|large|] == large;
  }

  ghost predicate FromLarge(large: seq<LargeFile>, handles: seq<PointerFile>) {
    forall h :: h in handles ==>
      exists f :: f in large && h.path == f.path && h.text == LfsPointer.PointerText(f.oid, f.size)
  }

  /** No path twice, and every name made from the path and the place in the list. */
  ghost predicate Labelled(handles: seq<PointerFile>, display: (string, nat) -> string) {
    && (forall j, k :: 0 <= j < k < |handles| ==> handles[j].path != handles[k].path)
    && (forall j :: 0 <= j < |handles| ==> handles[j].name == display(handles[j].path, j))
  }

  lemma OneMoreHandle(large: seq<LargeFile>, item: LargeFile, handles: seq<PointerFile>, handle: PointerFile,
                      display: (string, nat) -> string)
    requires item in large && FromLarge(large, handles) && Labelled(handles, display)
    requires forall h :: h in handles ==> h.path != item.path
    requires handle.path == item.path && handle.text == LfsPointer.PointerText(item.oid, item.size)
    requires handle.name == display(item.path, |handles|)
    ensures FromLarge(large, handles + [handle]) && Labelled(handles + [handle], display)
  {
  }

  /**
   The whole path from local files to commit: the pointers that get committed all refer to objects the server holds,
   each stored under the hash of the bytes that were read when the local file was hashed.
   */
  method UploadLargeFiles(service: LfsServer.LfsService, actor: Quota.UserId, userExists: bool, ownerId: Quota.UserId,
                          owner: string, repo: string, files: seq<LocalFile>, cap: int, batchRefused: bool,
                          puts: nat -> PutInput, display: (string, nat) -> string)
    returns (committed: Result<seq<PointerFile>, UploadError>)
    requires ObjectStore.SoundFiles(service.store.sha256, service.store.files)
    requires forall k :: puts(k).refusal.Some? ==> puts(k).refusal.value >= 400
    modifies service.store`files, service.quota
    ensures LfsServer.Grows(old(service.store.files), service.store.files)
    ensures committed.Ok? ==> forall h :: h in committed.value ==>
              exists f :: f in files && f.listedSize > cap && h.path == f.path && RefersTo(service, h.text, f.content)
    ensures committed.Ok? ==> forall f :: f in files && f.listedSize > cap ==>
              exists h :: h in committed.value && h.path == f.path
  {
    var sha256 := service.store.sha256;
    var partition := PartitionFiles(sha256, files, cap);
    if partition.Err? {
      return Err(partition.error);
    }
    var large := partition.value.large;
    LargeFilesFromLocal(sha256, files, cap, large);
    var uploaded := RunLfsUpload(service, actor, userExists, ownerId, owner, repo, large, batchRefused, puts);
    if uploaded.Err? {
      return Err(uploaded.error);
    }
    service.OthersRun();
    var handles := CommittedPointers(service, files, cap, large, display);
    return Ok(handles);
  }

  /** The pointers for what has been uploaded. */
  method CommittedPointers(service: LfsServer.LfsService, files: seq<LocalFile>, cap: int, large: seq<LargeFile>,
                           display: (string, nat) -> string) returns (handles: seq<PointerFile>)
    requires FromLocal(service.store.sha256, files, cap, large)
    requires forall item :: item in large ==> Stored(service, item.oid)
    ensures forall h :: h in handles ==>
              exists f :: f in files && f.listedSize > cap && h.path == f.path && RefersTo(service, h.text, f.content)
    ensures forall f :: f in files && f.listedSize > cap ==> exists h :: h in handles && h.path == f.path
  {
    handles := PointerHandles(large, display);
    PointersRefer(service, files, cap, large, handles);
    forall f | f in files && f.listedSize > cap ensures exists h :: h in handles && h.path == f.path {
      var item := LargeFile(f.path, service.store.sha256(f.content), |f.content|);
      assert item in large;
    }
  }

  /** The large files are the local ones over the threshold, with the hash and the length of what was read. */
  ghost predicate FromLocal(sha256: Bytes -> Oid, files: seq<LocalFile>, cap: int, large: seq<LargeFile>) {
    forall item :: item in large <==>
      exists f :: f in files && f.listedSize > cap && item == LargeFile(f.path, sha256(f.content), |f.content|)
  }

  lemma PointersRefer(service: LfsServer.LfsService, files: seq<LocalFile>, cap: int, large: seq<LargeFile>,
                      handles: seq<PointerFile>)
    requires FromLarge(large, handles) && forall item :: item in large ==> Stored(service, item.oid)
    requires FromLocal(service.store.sha256, files, cap, large)
    ensures forall h :: h in handles ==>
              exists f :: f in files && f.listedSize > cap && h.path == f.path && RefersTo(service, h.text, f.content)
  {
    forall h | h in handles
      ensures exists f :: f in files && f.listedSize > cap && h.path == f.path && RefersTo(service, h.text, f.content)
    {
      var item :| item in large && h.path == item.path && h.text == LfsPointer.PointerText(item.oid, item.size);
      var f :| f in files && f.listedSize > cap
               && item == LargeFile(f.path, service.store.sha256(f.content), |f.content|);
      assert RefersTo(service, h.text, f.content);
    }
  }

  /** A pointer text names a stored object with the same hash as the given content, and states its length. */
  ghost predicate RefersTo(service: LfsServer.LfsService, text: string, content: Bytes)
    reads service.store
  {
    && text == LfsPointer.PointerText(service.store.sha256(content), |content|)
    && Stored(service, service.store.sha256(content))
  }

  lemma LargeFilesFromLocal(sha256: Bytes -> Oid, files: seq<LocalFile>, cap: int, large: seq<LargeFile>)
    requires multiset(large) == multiset(LargeOf(sha256, files, cap))
    ensures FromLocal(sha256, files, cap, large)
  {
    LargeOfExact(sha256, files, cap);
    forall item ensures item in large <==> item in LargeOf(sha256, files, cap) {
      assert item in large <==> item in multiset(large);
    }
  }

  lemma {:induction false} LargeOfExact(sha256: Bytes -> Oid, files: seq<LocalFile>, cap: int)
    ensures forall item :: item in LargeOf(sha256, files, cap) <==>
              exists f :: f in files && f.listedSize > cap && item == LargeFile(f.path, sha256(f.content), |f.content|)
  {
    if files != [] {
      LargeOfExact(sha256, files[..|files| - 1], cap);
      assert files == files[..|files| - 1] + [files[|files| - 1]];
    }
  }
}
