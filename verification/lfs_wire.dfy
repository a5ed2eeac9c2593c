/** The LFS batch exchange: what the server answers, and how the client sorts the answer. */
module LfsWire {
  import opened Prelude

  datatype BatchObject = BatchObject(oid: string, size: int)

  // ----- the server's entries -----

  datatype ObjectError = ObjectError(code: int, message: string)

  datatype LfsAction = LfsAction(href: string, headers: map<string, string>, expiresIn: int)

  datatype BatchResponse = BatchResponse(oid: string, size: int, upload: Option<LfsAction>, error: Option<ObjectError>)

  // ----- the entries as the client finds them in the response body -----

  /** One list item; a part that is missing or of the wrong JSON type is None. */
  datatype RawEntry =
    | NotAnObject
    | RawEntry(oid: string, size: int, error: Option<ObjectError>, actions: Option<RawActions>)

  datatype RawActions = RawActions(upload: Option<RawUpload>)

  datatype RawUpload = RawUpload(href: string, header: map<string, string>, expiresIn: Option<int>)

  function ToWire(r: BatchResponse): RawEntry {
    RawEntry(r.oid, r.size, r.error,
             match r.upload
             case None => None
             case Some(a) => Some(RawActions(Some(RawUpload(a.href, a.headers, Some(a.expiresIn))))))
  }

  function ToWireAll(rs: seq<BatchResponse>): (w: seq<RawEntry>)
    ensures |w| == |rs| && forall i :: 0 <= i < |w| ==> w[i] == ToWire(rs[i])
  {
    if rs == [] then [] else ToWireAll(rs[..|rs| - 1]) + [ToWire(rs[|rs| - 1])]
  }

  // ----- the client's view -----

  datatype BatchAction = BatchAction(oid: string, size: int, href: string, header: map<string, string>,
                                     expiresIn: Option<int>)

  datatype BatchObjectError = BatchObjectError(oid: string, size: int, code: int, message: string)

  /** What one entry asks of the client. */
  datatype Verdict = Skip | Failed(err: BatchObjectError) | Present(oid: string) | Wanted(action: BatchAction)

  function Read(e: RawEntry): Verdict {
    if e.NotAnObject? then Skip
    else if e.error.Some? then Failed(BatchObjectError(e.oid, e.size, e.error.value.code, e.error.value.message))
    else if e.actions.None? then Present(e.oid)
    else if e.actions.value.upload.None? then
      Failed(BatchObjectError(e.oid, e.size, 500, "LFS response missing `actions.upload`."))
    else
      var upload := e.actions.value.upload.value;
      if upload.href == "" then Failed(BatchObjectError(e.oid, e.size, 500, "LFS response missing upload `href`."))
      else Wanted(BatchAction(e.oid, e.size, upload.href, upload.header, upload.expiresIn))
  }

  function ActionsOf(entries: seq<RawEntry>): seq<BatchAction> {
    if entries == [] then []
    else
      var before, v := ActionsOf(entries[..|entries| - 1]), Read(entries[|entries| - 1]);
      if v.Wanted? then before + [v.action] else before
  }

  function ErrorsOf(entries: seq<RawEntry>): seq<BatchObjectError> {
    if entries == [] then []
    else
      var before, v := ErrorsOf(entries[..|entries| - 1]), Read(entries[|entries| - 1]);
      if v.Failed? then before + [v.err] else before
  }

  function PresentIn(entries: seq<RawEntry>): seq<string> {
    if entries == [] then []
    else
      var before, v := PresentIn(entries[..|entries| - 1]), Read(entries[|entries| - 1]);
      if v.Present? then before + [v.oid] else before
  }

  /** The client's single pass over the response list. */
  method SplitResponse(entries: seq<RawEntry>)
    returns (actions: seq<BatchAction>, errors: seq<BatchObjectError>, present: seq<string>)
    ensures actions == ActionsOf(entries) && errors == ErrorsOf(entries) && present == PresentIn(entries)
  {
    actions, errors, present := [], [], [];
    for i := 0 to |entries|
      invariant actions == ActionsOf(entries[..i])
      invariant errors == ErrorsOf(entries[..i])
      invariant present == PresentIn(entries[..i])
    {
      var entry := entries[i];
      assert entries[..i + 1][..i] == entries[..i];
      if entry.NotAnObject? {
        continue;
      }
      if entry.error.Some? {
        errors := errors + [BatchObjectError(entry.oid, entry.size, entry.error.value.code, entry.error.value.message)];
        continue;
      }
      if entry.actions.None? {
        present := present + [entry.oid];
        continue;
      }
      var upload := entry.actions.value.upload;
      if upload.None? {
        errors := errors
          + [BatchObjectError(entry.oid, entry.size, 500, "LFS response missing `actions.upload`.")];
        continue;
      }
      if upload.value.href == "" {
        errors := errors + [BatchObjectError(entry.oid, entry.size, 500, "LFS response missing upload `href`.")];
        continue;
      }
      actions := actions
        + [BatchAction(entry.oid, entry.size, upload.value.href, upload.value.header, upload.value.expiresIn)];
    }
    assert entries[..|entries|] == entries;
  }

  /** Every entry that is a JSON object lands in exactly one list, and the lists hold nothing else. */
  lemma {:induction false} EveryEntryIsAnswered(entries: seq<RawEntry>, i: nat)
    requires i < |entries|
    ensures match Read(entries[i])
            case Skip => entries[i].NotAnObject?
            case Failed(e) => e in ErrorsOf(entries)
            case Present(oid) => oid in PresentIn(entries)
            case Wanted(a) => a in ActionsOf(entries)
  {
    if i < |entries| - 1 {
      EveryEntryIsAnswered(entries[..|entries| - 1], i);
    }
  }

  lemma ListsHoldNothingElse(entries: seq<RawEntry>)
    ensures |ActionsOf(entries)| + |ErrorsOf(entries)| + |PresentIn(entries)|
            == |entries| - multiset(entries)[NotAnObject]
    ensures forall a :: a in ActionsOf(entries) ==> exists i :: 0 <= i < |entries| && Read(entries[i]) == Wanted(a)
  {
    ListsCountObjects(entries);
    forall a | a in ActionsOf(entries) ensures exists i :: 0 <= i < |entries| && Read(entries[i]) == Wanted(a) {
      var i := ActionSource(entries, a);
    }
  }

  lemma {:induction false} ListsCountObjects(entries: seq<RawEntry>)
    ensures |ActionsOf(entries)| + |ErrorsOf(entries)| + |PresentIn(entries)|
            == |entries| - multiset(entries)[NotAnObject]
  {
    if entries != [] {
      var init, last := entries[..|entries| - 1], entries[|entries| - 1];
      ListsCountObjects(init);
      assert entries == init + [last];
    }
  }

  lemma {:induction false} ActionSource(entries: seq<RawEntry>, a: BatchAction) returns (i: nat)
    requires a in ActionsOf(entries)
    ensures i < |entries| && Read(entries[i]) == Wanted(a)
  {
    var init := entries[..|entries| - 1];
    if a in ActionsOf(init) {
      i := ActionSource(init, a);
    } else {
      i := |init|;
    }
  }

  /** Through the wire and back: the client reads a server entry as what the server meant by it. */
  lemma WireRoundTrip(r: BatchResponse)
    ensures var v := Read(ToWire(r));
            if r.error.Some? then
              v == Failed(BatchObjectError(r.oid, r.size, r.error.value.code, r.error.value.message))
            else match r.upload
                 case None => v == Present(r.oid)
                 case Some(a) =>
                   if a.href == "" then v.Failed? && v.err.oid == r.oid
                   else v == Wanted(BatchAction(r.oid, r.size, a.href, a.headers, Some(a.expiresIn)))
  {
  }
}
