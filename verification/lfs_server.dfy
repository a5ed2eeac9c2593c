/** The server's two LFS endpoints for the local backend: the batch decision and the streaming upload. */
module LfsServer {
  import opened Prelude
  import opened Quota
  import opened LfsWire
  import Dedup
  import Text
  import ObjectStore

  // ----- the request body as the server receives it -----

  datatype BodyEvent = Disconnect | BodyPart(data: Bytes, more: bool)

  /** The chunks handed on, and whether the running total crossed the limit. */
  datatype Body = Body(chunks: seq<Bytes>, tooLarge: bool)

  /**
   The body a list of events amounts to, with total bytes received before them: it ends with the part that announces no
   more, with a disconnect, or just before the part that crosses the limit.
   */
  function Received(events: seq<BodyEvent>, limit: int, total: nat): Body {
    if events == [] || events[0].Disconnect? then Body([], false)
    else
      var e := events[0];
      if e.data != [] && total + |e.data| > limit then Body([], true)
      else
        var rest := if e.more then Received(events[1..], limit, total + |e.data|) else Body([], false);
        Prepend(e.data, rest)
  }

  /** Empty parts are not handed on. */
  function Prepend(data: Bytes, rest: Body): Body {
    Body((if data == [] then [] else [data]) + rest.chunks, rest.tooLarge)
  }

  lemma PrependContent(data: Bytes, rest: Body)
    ensures Concat(Prepend(data, rest).chunks) == data + Concat(rest.chunks)
  {
    if data == [] {
      assert [] + rest.chunks == rest.chunks;
    } else {
      ConcatFirst(data, rest.chunks);
    }
  }

  /** The whole body, when these chunks have been handed on and the rest is still to come. */
  ghost function After(chunks: seq<Bytes>, rest: Body): Body {
    Body(chunks + rest.chunks, rest.tooLarge)
  }

  /** What one event does to the chunks handed on so far. */
  lemma ReceivedStep(events: seq<BodyEvent>, i: nat, limit: int, total: nat, chunks: seq<Bytes>)
    requires i < |events|
    ensures var e := events[i];
            After(chunks, Received(events[i..], limit, total)) ==
            if e.Disconnect? then Body(chunks, false)
            else if e.data != [] && total + |e.data| > limit then Body(chunks, true)
            else
              var chunks' := if e.data == [] then chunks else chunks + [e.data];
              if e.more then After(chunks', Received(events[i + 1..], limit, total + |e.data|))
              else Body(chunks', false)
  {
    var e := events[i];
    assert events[i..][0] == e && events[i..][1..] == events[i + 1..];
    assert chunks + [] == chunks;
    if e.BodyPart? {
      var rest := if e.more then Received(events[i + 1..], limit, total + |e.data|) else Body([], false);
      Associative(chunks, [e.data], rest.chunks);
      assert [] + rest.chunks == rest.chunks && [e.data] + [] == [e.data];
    }
  }

  /** The chunks handed on so far, and what is still to come, make up the whole body. */
  ghost predicate Pending(whole: Body, chunks: seq<Bytes>, events: seq<BodyEvent>, i: nat, limit: int, total: nat) {
    i <= |events| && whole == After(chunks, Received(events[i..], limit, total))
  }

  lemma PendingAtFirst(events: seq<BodyEvent>, limit: int)
    ensures Pending(Received(events, limit, 0), [], events, 0, limit, 0)
  {
    assert events[0..] == events;
    assert [] + Received(events, limit, 0).chunks == Received(events, limit, 0).chunks;
  }

  lemma PendingAtLast(whole: Body, chunks: seq<Bytes>, events: seq<BodyEvent>, limit: int, total: nat)
    requires Pending(whole, chunks, events, |events|, limit, total)
    ensures whole == Body(chunks, false)
  {
    assert chunks + [] == chunks;
  }

  lemma PendingTurn(whole: Body, chunks: seq<Bytes>, events: seq<BodyEvent>, i: nat, limit: int, total: nat)
    requires i < |events| && Pending(whole, chunks, events, i, limit, total)
    ensures var e := events[i];
            if e.Disconnect? then whole == Body(chunks, false)
            else if e.data != [] && total + |e.data| > limit then whole == Body(chunks, true)
            else
              var chunks' := if e.data == [] then chunks else chunks + [e.data];
              if e.more then Pending(whole, chunks', events, i + 1, limit, total + |e.data|)
              else whole == Body(chunks', false)
  {
    ReceivedStep(events, i, limit, total, chunks);
  }

  method StreamRequestBody(events: seq<BodyEvent>, limit: int) returns (body: Body)
    ensures body == Received(events, limit, 0)
  {
    var total: nat := 0;
    var chunks: seq<Bytes> := [];
    ghost var whole := Received(events, limit, 0);
    PendingAtFirst(events, limit);
    for i := 0 to |events|
      invariant Pending(whole, chunks, events, i, limit, total)
    {
      var event := events[i];
      PendingTurn(whole, chunks, events, i, limit, total);
      if event.Disconnect? {
        return Body(chunks, false);
      }
      if event.data != [] {
        total := total + |event.data|;
        if total > limit {
          return Body(chunks, true);
        }
        chunks := chunks + [event.data];
      }
      if !event.more {
        return Body(chunks, false);
      }
    }
    PendingAtLast(whole, chunks, events, limit, total);
    return Body(chunks, false);
  }

  /** The bytes of a whole list of parts. */
  function AllData(events: seq<BodyEvent>): Bytes {
    if events == [] || events[0].Disconnect? then []
    else events[0].data + (if events[0].more then AllData(events[1..]) else [])
  }

  /** Too large exactly when the data goes over the limit, and otherwise handed on whole. */
  ghost predicate HandsOn(body: Body, data: Bytes, limit: int, total: nat) {
    && (body.tooLarge <==> total + |data| > limit)
    && (!body.tooLarge ==> Concat(body.chunks) == data)
  }

  lemma HandsOnMore(data: Bytes, rest: Body, tail: Bytes, limit: int, total: nat)
    requires total + |data| <= limit && HandsOn(rest, tail, limit, total + |data|)
    ensures HandsOn(Prepend(data, rest), data + tail, limit, total)
  {
    PrependContent(data, rest);
  }

  /** A body within the limit is handed on completely, and only such a body. */
  lemma {:induction false} ReceivedIsComplete(events: seq<BodyEvent>, limit: int, total: nat)
    requires total <= limit
    ensures HandsOn(Received(events, limit, total), AllData(events), limit, total)
  {
    if events != [] && events[0].BodyPart? {
      var e, rest := events[0], events[1..];
      if total + |e.data| <= limit {
        if e.more {
          ReceivedIsComplete(rest, limit, total + |e.data|);
          HandsOnMore(e.data, Received(rest, limit, total + |e.data|), AllData(rest), limit, total);
        } else {
          HandsOnMore(e.data, Body([], false), [], limit, total);
        }
      }
    }
  }

  // ----- what a batch upload entry should be -----

  /** What the answer to one requested object depends on. */
  datatype Situation = Situation(stored: bool, limit: int, known: bool, used: int, cap: int)

  /** An upload is offered: the slot is free, the size within the limit, the user known, and the quota holds it. */
  predicate Offered(size: int, s: Situation) {
    !s.stored && size <= s.limit && s.known && Fits(s.used, s.cap, size)
  }

  /** The upload is refused with this code. */
  predicate RefusedWith(code: int, size: int, s: Situation) {
    && !s.stored
    && if size > s.limit then code == 413
       else if !s.known then code == 401
       else code == 413 && !Fits(s.used, s.cap, size)
  }

  /** The object an upload address stands for: the last part of its path. */
  function TargetOf(href: string): string {
    var parts := Text.Split(href, '/');
    parts[|parts| - 1]
  }

  /** The entry is about this object, and offers its upload or refuses it exactly where it should. */
  ghost predicate Answers(r: BatchResponse, o: BatchObject, s: Situation) {
    && r.oid == o.oid && r.size == o.size
    && (r.upload.Some? <==> Offered(o.size, s))
    && (forall code :: (r.error.Some? && r.error.value.code == code) <==> RefusedWith(code, o.size, s))
    && (r.upload.Some? ==> r.upload.value.href != ""
                           && ('/' !in o.oid ==> TargetOf(r.upload.value.href) == o.oid))
  }

  /** Never both an offer and a refusal, and neither exactly for a stored object. */
  lemma OneAnswer(r: BatchResponse, o: BatchObject, s: Situation)
    requires Answers(r, o, s)
    ensures !(r.error.Some? && r.upload.Some?)
    ensures r.error.None? && r.upload.None? <==> s.stored
  {
    if r.error.Some? {
      assert RefusedWith(r.error.value.code, o.size, s);
    } else {
      assert !RefusedWith(413, o.size, s) && !RefusedWith(401, o.size, s);
    }
  }

  /** Objects only ever get added, and stay what they were. */
  ghost predicate Grows(files: map<string, Bytes>, files': map<string, Bytes>) {
    forall oid: Oid :: var p := ObjectStore.ObjectPath(oid);
                       p in files ==> p in files' && files'[p] == files[p]
  }

  /** Storing an accepted object, or cleaning up after a refused one, leaves every stored object as it was. */
  lemma PutGrows(sha256: Bytes -> Oid, files: map<string, Bytes>, oid: string, content: Bytes)
    requires ObjectStore.SoundFiles(sha256, files) && ObjectStore.ValidOid(oid)
    ensures Grows(files, files - {ObjectStore.TmpPath(oid)})
    ensures ObjectStore.SoundFiles(sha256, files - {ObjectStore.TmpPath(oid)})
    ensures ObjectStore.ObjectPath(oid) !in files && sha256(content) == oid ==>
              var stored := files[ObjectStore.ObjectPath(oid) := content] - {ObjectStore.TmpPath(oid)};
              && Grows(files, stored) && ObjectStore.SoundFiles(sha256, stored)
              && ObjectStore.ObjectPath(oid) in stored
  {
    forall other: Oid ensures ObjectStore.ObjectPath(other) != ObjectStore.TmpPath(oid) {
      ObjectStore.LowerValid(other);
      ObjectStore.PathsCollide(other, oid);
    }
    if sha256(content) == oid {
      ObjectStore.WriteKeepsSound(sha256, files, oid, content);
    }
  }

  const UNAUTHORIZED := 401
  const TOO_LARGE := 413
  const UNPROCESSABLE := 422
  const OK := 200

  class LfsService {
    const store: ObjectStore.LocalObjectStore
    const quota: QuotaTable
    const maxObjectBytes: int
    const baseUrl: string
    const presignTtl: int

    constructor (store: ObjectStore.LocalObjectStore, quota: QuotaTable, maxObjectBytes: int, baseUrl: string, ttl: int)
      ensures this.store == store && this.quota == quota && this.maxObjectBytes == maxObjectBytes
    {
      this.store, this.quota, this.maxObjectBytes, this.baseUrl, this.presignTtl :=
        store, quota, maxObjectBytes, baseUrl, ttl;
    }

    /**
     Whatever other clients do with the server between two requests of one client: objects may appear, temporary files
     come and go, usage and caps change. Only the contract counts here.
     */
    method OthersRun()
      requires ObjectStore.SoundFiles(store.sha256, store.files)
      modifies store`files, quota
      ensures ObjectStore.SoundFiles(store.sha256, store.files) && Grows(old(store.files), store.files)
    {
    }

    function SituationFor(oid: string, actor: UserId, known: bool): Situation
      reads store, quota
      requires |oid| == 64
    {
      Situation(ObjectStore.ObjectPath(oid) in store.files, maxObjectBytes, known, quota.Used(actor), quota.Cap(actor))
    }

    method BuildUploadEntry(owner: string, repo: string, o: BatchObject, actor: UserId, userExists: bool)
      returns (entry: BatchResponse)
      requires |o.oid| == 64
      modifies quota
      ensures Answers(entry, o, old(SituationFor(o.oid, actor, userExists)))
      ensures forall u :: quota.Cap(u) == old(quota.Cap(u)) && quota.Used(u) == old(quota.Used(u))
    {
      if store.HasObject(o.oid) {
        return BatchResponse(o.oid, o.size, None, None);
      }
      if o.size > maxObjectBytes {
        return BatchResponse(o.oid, o.size, None, Some(ObjectError(TOO_LARGE, "object size exceeds per-object limit")));
      }
      if !userExists {
        return BatchResponse(o.oid, o.size, None,
                             Some(ObjectError(UNAUTHORIZED, "authenticated user no longer exists")));
      }
      var allowed := quota.CheckPushAllowed(actor, o.size);
      if !allowed {
        return BatchResponse(o.oid, o.size, None, Some(ObjectError(TOO_LARGE, "quota exceeded")));
      }
      var prefix := baseUrl + "/" + owner + "/" + repo + ".git/info/lfs/objects";
      var href := prefix + "/" + o.oid;
      if '/' !in o.oid {
        Text.SplitLast(prefix, o.oid, '/');
      }
      return BatchResponse(o.oid, o.size, Some(LfsAction(href, map[], presignTtl)), None);
    }

    /**
     One entry per distinct requested object, in request order, each decided on its own: one object over the limit does
     not fail the batch. Nobody's usage changes.
     */
    method HandleUploadBatch(owner: string, repo: string, objects: seq<BatchObject>, actor: UserId, userExists: bool)
      returns (entries: seq<BatchResponse>)
      requires forall o :: o in objects ==> |o.oid| == 64
      modifies quota
      ensures var asked := Dedup.FirstOccurrences(objects);
              && |entries| == |asked|
              && forall i :: 0 <= i < |asked| ==>
                   asked[i] in objects
                   && Answers(entries[i], asked[i], old(SituationFor(asked[i].oid, actor, userExists)))
      ensures forall u :: quota.Cap(u) == old(quota.Cap(u)) && quota.Used(u) == old(quota.Used(u))
    {
      var asked := DedupObjects(objects);
      Dedup.FirstOccurrencesExact(objects);
      entries := [];
      for i := 0 to |asked|
        invariant |entries| == i
        invariant forall u :: quota.Cap(u) == old(quota.Cap(u)) && quota.Used(u) == old(quota.Used(u))
        invariant forall j :: 0 <= j < i ==>
                    Answers(entries[j], asked[j], old(SituationFor(asked[j].oid, actor, userExists)))
      {
        assert asked[i] in asked;
        var entry := BuildUploadEntry(owner, repo, asked[i], actor, userExists);
        entries := entries + [entry];
      }
    }

    /** The size the upload is held to: the announced one, or the server's limit when none is announced. */
    function HeldTo(length: Option<int>): int {
      if length.Some? then length.value else maxObjectBytes
    }

    /** The upload passes every check: limit, quota, free slot, size and hash. */
    ghost predicate Acceptable(oid: string, owner: UserId, length: Option<int>, body: Body)
      reads store, quota
    {
      && 0 <= HeldTo(length) <= maxObjectBytes
      && Fits(quota.Used(owner), quota.Cap(owner), HeldTo(length))
      && !body.tooLarge
      && ObjectStore.ValidOid(oid)
      && ObjectStore.ObjectPath(oid) !in store.files
      && |Concat(body.chunks)| == HeldTo(length)
      && store.sha256(Concat(body.chunks)) == oid
    }

    /**
     Stores one object and charges its size to the owner exactly when every check passes; otherwise refuses, and changes
     no object and no usage. The part of the request that is decided elsewhere (repository lookup, authentication) comes
     in as refusal.
     */
    method HandlePut(oid: string, owner: UserId, refusal: Option<nat>, length: Option<int>, events: seq<BodyEvent>)
      returns (status: nat)
      requires refusal.Some? ==> refusal.value >= 400
      modifies store`files, quota
      ensures status == OK || status >= 400
      ensures refusal.Some? ==> status == refusal.value
      ensures refusal.None? && status != OK ==>
                var body := Received(events, maxObjectBytes, 0);
                status == if || (length.Some? && !(0 <= length.value <= maxObjectBytes))
                             || !Fits(old(quota.Used(owner)), old(quota.Cap(owner)), HeldTo(length))
                             || (ObjectStore.ValidOid(oid) && HeldTo(length) >= 0 && body.tooLarge
                                 && ObjectStore.ObjectPath(oid) !in old(store.files))
                          then 413 else 422
      ensures var body := Received(events, maxObjectBytes, 0);
              status == OK <==> refusal.None? && old(Acceptable(oid, owner, length, body))
      ensures status == OK ==>
                var content := Concat(Received(events, maxObjectBytes, 0).chunks);
                && store.files == old(store.files)[ObjectStore.ObjectPath(oid) := content] - {ObjectStore.TmpPath(oid)}
                && (old(quota.Used(owner)) >= 0 ==> quota.Used(owner) == old(quota.Used(owner)) + |content|)
                && (forall u :: u != owner ==> quota.Used(u) == old(quota.Used(u)))
      ensures status != OK ==>
                && (store.files == old(store.files)
                    || (ObjectStore.ValidOid(oid) && store.files == old(store.files) - {ObjectStore.TmpPath(oid)}))
                && (forall u :: quota.Used(u) == old(quota.Used(u)))
      ensures forall u :: quota.Cap(u) == old(quota.Cap(u))
    {
      if refusal.Some? {
        return refusal.value;
      }
      var sizeForQuota := maxObjectBytes;
      if length.Some? {
        if length.value < 0 || length.value > maxObjectBytes {
          return TOO_LARGE;
        }
        sizeForQuota := length.value;
      }
      var allowed := quota.CheckPushAllowed(owner, sizeForQuota);
      if !allowed {
        return TOO_LARGE;
      }
      var body := StreamRequestBody(events, maxObjectBytes);
      var written := store.WriteObject(oid, body.chunks, body.tooLarge, sizeForQuota);
      if written.Err? {
        return if written.error == ObjectStore.BodyFailed then TOO_LARGE else UNPROCESSABLE;
      }
      quota.AddUsage(owner, written.value);
      return OK;
    }
  }

  /**
   The two endpoints of one upload. For content of the requested hash and length, a free slot and a known user, the
   batch offers the upload to the one who asks exactly when the PUT will be accepted on the owner's account, if and
   only if the object is over the limit anyway or the two accounts agree on its size; so always for one's own
   repository.
   */
  lemma OfferedIffAcceptable(service: LfsService, o: BatchObject, actor: UserId, owner: UserId,
                             events: seq<BodyEvent>)
    requires 0 <= o.size && ObjectStore.ValidOid(o.oid) && ObjectStore.ObjectPath(o.oid) !in service.store.files
    requires |AllData(events)| == o.size && service.store.sha256(AllData(events)) == o.oid
    ensures var body := Received(events, service.maxObjectBytes, 0);
            (Offered(o.size, service.SituationFor(o.oid, actor, true)) <==>
               service.Acceptable(o.oid, owner, Some(o.size), body)) <==>
              o.size > service.maxObjectBytes
              || (Fits(service.quota.Used(actor), service.quota.Cap(actor), o.size) <==>
                    Fits(service.quota.Used(owner), service.quota.Cap(owner), o.size))
  {
    if o.size <= service.maxObjectBytes {
      ReceivedIsComplete(events, service.maxObjectBytes, 0);
    }
  }

  method DedupObjects(objects: seq<BatchObject>) returns (out: seq<BatchObject>)
    ensures out == Dedup.FirstOccurrences(objects)
  {
    var seen: set<BatchObject> := {};
    out := [];
    for i := 0 to |objects|
      invariant seen == set o | o in objects[..i]
      invariant out == Dedup.FirstOccurrences(objects[..i])
    {
      var o := objects[i];
      assert objects[..i + 1][..i] == objects[..i];
      if o in seen {
        continue;
      }
      seen := seen + {o};
      out := out + [o];
    }
    assert objects[..|objects|] == objects;
  }
}
