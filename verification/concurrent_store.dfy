/**
 The object store under concurrent uploads. Each upload is cut at its await points; a run is any interleaving of the
 pieces. A task may be cancelled between any two of them; a call it has already handed to a worker thread still happens
 and counts as in flight until then. The process may die at any time. Names lead to inodes, so that a file that is
 unlinked or replaced while another upload still writes to it is modelled as the file system treats it.
 */
module ConcurrentStore {
  import opened Prelude
  import opened ObjectStore
  import opened Text

  /** Where an upload in flight stands; key is the lower-case oid its two paths are made of. */
  datatype Writer =
    | Starting(oid: string, key: Oid, expected: int)   // slot checked, parent directory being made
    | Scrubbing(oid: string, key: Oid, expected: int)  // a stale temporary file is being removed
    | Opening(oid: string, key: Oid, expected: int)    // stale file gone, own file not yet open
    | Streaming(oid: string, key: Oid, expected: int, inode: nat, hashed: Bytes) // waiting for the next chunk
    | Renaming(oid: string, key: Oid)                  // all checks passed, rename under way
    | Abandoned(oid: string, key: Oid)                 // cancelled, the stale file is still being removed

  datatype Disk = Disk(names: map<Path, nat>, inodes: map<nat, Bytes>, next: nat, writers: map<nat, Writer>)

  const EMPTY := Disk(map[], map[], 0, map[])

  datatype Event =
    | Begin(w: nat, oid: string, expected: int)
    | MadeParent(w: nat)
    | Unlinked(w: nat)
    | Open(w: nat)
    | Chunk(w: nat, data: Bytes)
    | BodyRaises(w: nat)
    | BodyEnds(w: nat)
    | Rename(w: nat)
    | Cancel(w: nat)
    | Crash

  function OpenForWriting(d: Disk, w: nat, s: Writer): Disk
    requires s.Starting? || s.Opening?
  {
    var tmp := Temporary(s.key);
    if tmp in d.names then
      d.(inodes := d.inodes[d.names[tmp] := []],
         writers := d.writers[w := Streaming(s.oid, s.key, s.expected, d.names[tmp], [])])
    else
      Disk(d.names[tmp := d.next], d.inodes[d.next := []], d.next + 1,
           d.writers[w := Streaming(s.oid, s.key, s.expected, d.next, [])])
  }

  /** Opening a path that has a file empties that very file, for everybody who has it open; else it makes a new one. */
  lemma OpeningTruncates(d: Disk, w: nat, s: Writer)
    requires s.Starting? || s.Opening?
    ensures var d', tmp := OpenForWriting(d, w, s), Temporary(s.key);
            && w in d'.writers && d'.writers[w].Streaming? && d'.writers[w].hashed == []
            && tmp in d'.names && d'.names[tmp] == d'.writers[w].inode
            && d'.writers[w].inode in d'.inodes && d'.inodes[d'.writers[w].inode] == []
            && (if tmp in d.names then d'.names == d.names && d'.next == d.next
                else d'.names[tmp] == d.next && d'.next == d.next + 1)
            && (forall i :: i in d.inodes && i != d'.writers[w].inode ==> i in d'.inodes && d'.inodes[i] == d.inodes[i])
  {
  }

  function GiveUp(d: Disk, w: nat, key: Oid): Disk {
    d.(names := d.names - {Temporary(key)}, writers := d.writers - {w})
  }

  /** One piece of one upload; None when the event cannot happen in this state. */
  function Step(sha256: Bytes -> Oid, d: Disk, e: Event): Option<Disk> {
    if e.Crash? then Some(d.(writers := map[]))
    else if e.Begin? then
      if e.w in d.writers || !ValidOid(e.oid) || e.expected < 0 then None
      else
        LowerValid(e.oid);
        if Final(Lower(e.oid)) in d.names then None
        else Some(d.(writers := d.writers[e.w := Starting(e.oid, Lower(e.oid), e.expected)]))
    else if e.w !in d.writers then None
    else
      var s := d.writers[e.w];
      match e
      case MadeParent(w) =>
        if !s.Starting? then None
        else if Temporary(s.key) in d.names then
          Some(d.(writers := d.writers[w := Scrubbing(s.oid, s.key, s.expected)]))
        else Some(OpenForWriting(d, w, s))
      case Unlinked(w) =>
        if s.Abandoned? then Some(GiveUp(d, w, s.key))
        else if !s.Scrubbing? then None
        else Some(d.(names := d.names - {Temporary(s.key)},
                     writers := d.writers[w := Opening(s.oid, s.key, s.expected)]))
      case Open(w) =>
        if !s.Opening? then None else Some(OpenForWriting(d, w, s))
      case Chunk(w, data) =>
        if !s.Streaming? || s.inode !in d.inodes then None
        else Some(d.(inodes := d.inodes[s.inode := d.inodes[s.inode] + data],
                     writers := d.writers[w := s.(hashed := s.hashed + data)]))
      case BodyRaises(w) =>
        if !s.Streaming? then None else Some(GiveUp(d, w, s.key))
      case BodyEnds(w) =>
        if !s.Streaming? then None
        else if |s.hashed| == s.expected && sha256(s.hashed) == s.oid
        then Some(d.(writers := d.writers[w := Renaming(s.oid, s.key)]))
        else Some(GiveUp(d, w, s.key))
      case Rename(w) =>
        if !s.Renaming? then None
        // Renaming a file that is no longer there raises, and the upload ends.
        else if Temporary(s.key) !in d.names then Some(d.(writers := d.writers - {w}))
        else Some(d.(names := d.names[Final(s.key) := d.names[Temporary(s.key)]] - {Temporary(s.key)},
                     writers := d.writers - {w}))
      case Cancel(w) =>
        if s.Renaming? || s.Abandoned? then Some(d)
        else if s.Scrubbing? then Some(d.(writers := d.writers[w := Abandoned(s.oid, s.key)]))
        else Some(d.(writers := d.writers - {w}))
  }

  function Run(sha256: Bytes -> Oid, d: Disk, events: seq<Event>): Option<Disk> {
    if events == [] then Some(d)
    else
      match Run(sha256, d, events[..|events| - 1])
      case None => None
      case Some(before) => Step(sha256, before, events[|events| - 1])
  }

  // ----- what the disk shows -----

  function Content(d: Disk, path: Path): Option<Bytes> {
    if path in d.names && d.names[path] in d.inodes then Some(d.inodes[d.names[path]]) else None
  }

  /** Every file at an object path is named after the sha256 of its content. */
  ghost predicate Sound(sha256: Bytes -> Oid, d: Disk) {
    forall p :: p in d.names && p.Final? && d.names[p] in d.inodes ==> sha256(d.inodes[d.names[p]]) == p.key
  }

  // ----- the discipline: one upload in flight per object -----

  ghost predicate InFlight(d: Disk, key: string) {
    exists w :: w in d.writers && d.writers[w].key == key
  }

  ghost predicate Disciplined(d: Disk, e: Event) {
    e.Begin? ==> !InFlight(d, Lower(e.oid))
  }

  ghost predicate DisciplinedRun(sha256: Bytes -> Oid, d: Disk, events: seq<Event>) {
    if events == [] then true
    else
      var init := events[..|events| - 1];
      && DisciplinedRun(sha256, d, init)
      && (Run(sha256, d, init).Some? ==> Disciplined(Run(sha256, d, init).value, events[|events| - 1]))
  }

  // ----- the invariant -----

  ghost predicate Names(d: Disk) {
    && (forall p :: p in d.names ==> d.names[p] in d.inodes && d.names[p] < d.next)
    && (forall p, q :: p in d.names && q in d.names && d.names[p] == d.names[q] ==> p == q)
  }

  ghost predicate OnePerObject(d: Disk) {
    forall v, w :: v in d.writers && w in d.writers && d.writers[v].key == d.writers[w].key ==> v == w
  }

  /** What holds of each upload in flight: its slot is free, and its temporary file holds what it has hashed. */
  ghost predicate WriterOk(sha256: Bytes -> Oid, d: Disk, s: Writer) {
    && (IsOid(s.oid) ==> s.oid == s.key)
    && Final(s.key) !in d.names
    && (s.Streaming? ==> && Temporary(s.key) in d.names && d.names[Temporary(s.key)] == s.inode
                         && s.inode in d.inodes && d.inodes[s.inode] == s.hashed)
    && (s.Renaming? ==> && Temporary(s.key) in d.names && d.names[Temporary(s.key)] in d.inodes
                        && sha256(d.inodes[d.names[Temporary(s.key)]]) == s.key)
  }

  ghost predicate Inv(sha256: Bytes -> Oid, d: Disk) {
    && Names(d)
    && OnePerObject(d)
    && (forall w :: w in d.writers ==> WriterOk(sha256, d, d.writers[w]))
    && Sound(sha256, d)
  }

  // ----- preservation, step by step -----

  lemma LowerOfOid(oid: string)
    requires IsOid(oid)
    ensures Lower(oid) == oid
  {
    LowerValid(oid);
  }

  /** An upload is not disturbed by a change that leaves its two paths alone. */
  lemma StillOk(sha256: Bytes -> Oid, d: Disk, d': Disk, s: Writer)
    requires WriterOk(sha256, d, s) && Final(s.key) !in d'.names
    requires Temporary(s.key) in d.names && d.names[Temporary(s.key)] in d.inodes ==>
               var i := d.names[Temporary(s.key)];
               Temporary(s.key) in d'.names && d'.names[Temporary(s.key)] == i
               && i in d'.inodes && d'.inodes[i] == d.inodes[i]
    ensures WriterOk(sha256, d', s)
  {
  }

  lemma TruncateKeeps(sha256: Bytes -> Oid, d: Disk, w: nat, d': Disk)
    requires Inv(sha256, d) && w in d.writers && (d.writers[w].Starting? || d.writers[w].Opening?)
    requires Temporary(d.writers[w].key) in d.names && d' == OpenForWriting(d, w, d.writers[w])
    ensures Inv(sha256, d')
  {
    forall v | v in d'.writers && v != w ensures WriterOk(sha256, d', d'.writers[v]) {
      StillOk(sha256, d, d', d.writers[v]);
    }
    assert WriterOk(sha256, d', d'.writers[w]);
    assert Names(d') && OnePerObject(d') && Sound(sha256, d');
  }

  lemma CreateKeeps(sha256: Bytes -> Oid, d: Disk, w: nat, d': Disk)
    requires Inv(sha256, d) && w in d.writers && (d.writers[w].Starting? || d.writers[w].Opening?)
    requires Temporary(d.writers[w].key) !in d.names && d' == OpenForWriting(d, w, d.writers[w])
    ensures Inv(sha256, d')
  {
    forall v | v in d'.writers && v != w ensures WriterOk(sha256, d', d'.writers[v]) {
      assert d.writers[v].key != d.writers[w].key;
      StillOk(sha256, d, d', d.writers[v]);
    }
    assert WriterOk(sha256, d', d'.writers[w]);
    assert Names(d') && OnePerObject(d');
    assert Sound(sha256, d');
  }

  lemma OpenKeeps(sha256: Bytes -> Oid, d: Disk, w: nat)
    requires Inv(sha256, d) && w in d.writers && (d.writers[w].Starting? || d.writers[w].Opening?)
    ensures Inv(sha256, OpenForWriting(d, w, d.writers[w]))
  {
    var d' := OpenForWriting(d, w, d.writers[w]);
    if Temporary(d.writers[w].key) in d.names {
      TruncateKeeps(sha256, d, w, d');
    } else {
      CreateKeeps(sha256, d, w, d');
    }
  }

  lemma UnlinkOk(sha256: Bytes -> Oid, d: Disk, w: nat, d': Disk)
    requires Inv(sha256, d) && w in d.writers
    requires d'.names == d.names - {Temporary(d.writers[w].key)} && d'.inodes == d.inodes && d'.next == d.next
    ensures Names(d') && Sound(sha256, d')
    ensures forall v :: v in d.writers && v != w ==> WriterOk(sha256, d', d.writers[v])
  {
    forall v | v in d.writers && v != w ensures WriterOk(sha256, d', d.writers[v]) {
      StillOk(sha256, d, d', d.writers[v]);
    }
  }

  lemma GiveUpKeeps(sha256: Bytes -> Oid, d: Disk, w: nat)
    requires Inv(sha256, d) && w in d.writers
    ensures Inv(sha256, GiveUp(d, w, d.writers[w].key))
  {
    var d' := GiveUp(d, w, d.writers[w].key);
    UnlinkOk(sha256, d, w, d');
    assert OnePerObject(d');
  }

  lemma UnlinkKeeps(sha256: Bytes -> Oid, d: Disk, w: nat)
    requires Inv(sha256, d) && Step(sha256, d, Unlinked(w)).Some?
    ensures Inv(sha256, Step(sha256, d, Unlinked(w)).value)
  {
    if d.writers[w].Abandoned? {
      GiveUpKeeps(sha256, d, w);
    } else {
      var d' := Step(sha256, d, Unlinked(w)).value;
      UnlinkOk(sha256, d, w, d');
      assert OnePerObject(d') && WriterOk(sha256, d', d'.writers[w]);
    }
  }

  lemma ChunkKeeps(sha256: Bytes -> Oid, d: Disk, w: nat, data: Bytes)
    requires Inv(sha256, d) && Step(sha256, d, Chunk(w, data)).Some?
    ensures Inv(sha256, Step(sha256, d, Chunk(w, data)).value)
  {
    var d' := Step(sha256, d, Chunk(w, data)).value;
    forall v | v in d'.writers && v != w ensures WriterOk(sha256, d', d'.writers[v]) {
      StillOk(sha256, d, d', d.writers[v]);
    }
    assert WriterOk(sha256, d', d'.writers[w]);
    assert Names(d') && OnePerObject(d') && Sound(sha256, d');
  }

  lemma BodyEndsKeeps(sha256: Bytes -> Oid, d: Disk, w: nat)
    requires Inv(sha256, d) && Step(sha256, d, BodyEnds(w)).Some?
    ensures Inv(sha256, Step(sha256, d, BodyEnds(w)).value)
  {
    GiveUpKeeps(sha256, d, w);
  }

  lemma RenameKeeps(sha256: Bytes -> Oid, d: Disk, w: nat)
    requires Inv(sha256, d) && Step(sha256, d, Rename(w)).Some?
    ensures Inv(sha256, Step(sha256, d, Rename(w)).value)
  {
    var d', key := Step(sha256, d, Rename(w)).value, d.writers[w].key;
    forall v | v in d'.writers ensures WriterOk(sha256, d', d'.writers[v]) {
      assert d.writers[v].key != key;
      StillOk(sha256, d, d', d.writers[v]);
    }
    assert d'.names[Final(key)] == d.names[Temporary(key)];
    assert Names(d') && OnePerObject(d') && Sound(sha256, d');
  }

  /** Uploads may end, or change to a stage that relies on no file. */
  lemma RestagedKeeps(sha256: Bytes -> Oid, d: Disk, writers: map<nat, Writer>)
    requires Inv(sha256, d)
    requires forall v :: v in writers ==>
               && v in d.writers && writers[v].oid == d.writers[v].oid && writers[v].key == d.writers[v].key
               && (writers[v].Streaming? || writers[v].Renaming? ==> writers[v] == d.writers[v])
    ensures Inv(sha256, d.(writers := writers))
  {
    var d' := d.(writers := writers);
    forall v | v in writers ensures WriterOk(sha256, d', writers[v]) {
      assert WriterOk(sha256, d, d.writers[v]);
    }
  }

  lemma BeginKeeps(sha256: Bytes -> Oid, d: Disk, e: Event)
    requires Inv(sha256, d) && e.Begin? && Disciplined(d, e) && Step(sha256, d, e).Some?
    ensures Inv(sha256, Step(sha256, d, e).value)
  {
    if IsOid(e.oid) {
      LowerOfOid(e.oid);
    }
  }

  lemma MadeParentKeeps(sha256: Bytes -> Oid, d: Disk, w: nat)
    requires Inv(sha256, d) && Step(sha256, d, MadeParent(w)).Some?
    ensures Inv(sha256, Step(sha256, d, MadeParent(w)).value)
  {
    if Temporary(d.writers[w].key) !in d.names {
      OpenKeeps(sha256, d, w);
    } else {
      RestagedKeeps(sha256, d, Step(sha256, d, MadeParent(w)).value.writers);
    }
  }

  lemma ReopenKeeps(sha256: Bytes -> Oid, d: Disk, w: nat)
    requires Inv(sha256, d) && Step(sha256, d, Open(w)).Some?
    ensures Inv(sha256, Step(sha256, d, Open(w)).value)
  {
    OpenKeeps(sha256, d, w);
  }

  lemma CancelKeeps(sha256: Bytes -> Oid, d: Disk, w: nat)
    requires Inv(sha256, d) && Step(sha256, d, Cancel(w)).Some?
    ensures Inv(sha256, Step(sha256, d, Cancel(w)).value)
  {
    var s := d.writers[w];
    if s.Scrubbing? {
      RestagedKeeps(sha256, d, d.writers[w := Abandoned(s.oid, s.key)]);
    } else if !s.Renaming? && !s.Abandoned? {
      RestagedKeeps(sha256, d, d.writers - {w});
    }
  }

  lemma BodyRaisesKeeps(sha256: Bytes -> Oid, d: Disk, w: nat)
    requires Inv(sha256, d) && Step(sha256, d, BodyRaises(w)).Some?
    ensures Inv(sha256, Step(sha256, d, BodyRaises(w)).value)
  {
    GiveUpKeeps(sha256, d, w);
  }

  /** Every disciplined step keeps the invariant. */
  lemma StepKeeps(sha256: Bytes -> Oid, d: Disk, e: Event)
    requires Inv(sha256, d) && Disciplined(d, e) && Step(sha256, d, e).Some?
    ensures Inv(sha256, Step(sha256, d, e).value)
  {
    match e
    case Begin(_, _, _) => BeginKeeps(sha256, d, e);
    case MadeParent(w) => MadeParentKeeps(sha256, d, w);
    case Unlinked(w) => UnlinkKeeps(sha256, d, w);
    case Open(w) => ReopenKeeps(sha256, d, w);
    case Chunk(w, data) => ChunkKeeps(sha256, d, w, data);
    case BodyRaises(w) => BodyRaisesKeeps(sha256, d, w);
    case BodyEnds(w) => BodyEndsKeeps(sha256, d, w);
    case Rename(w) => RenameKeeps(sha256, d, w);
    case Cancel(w) => CancelKeeps(sha256, d, w);
    case Crash =>
  }

  /**
   Under the discipline the store is sound after every step of every run, however the uploads interleave and wherever
   they are cancelled or the process dies.
   */
  lemma {:induction false} DisciplinedRunsStaySound(sha256: Bytes -> Oid, d: Disk, events: seq<Event>)
    requires Inv(sha256, d) && DisciplinedRun(sha256, d, events) && Run(sha256, d, events).Some?
    ensures Inv(sha256, Run(sha256, d, events).value) && Sound(sha256, Run(sha256, d, events).value)
  {
    if events != [] {
      var init := events[..|events| - 1];
      DisciplinedRunsStaySound(sha256, d, init);
      StepKeeps(sha256, Run(sha256, d, init).value, events[|events| - 1]);
    }
  }

  /** A new store is empty, and from there every disciplined run is sound. */
  lemma NewStoreStaysSound(sha256: Bytes -> Oid, events: seq<Event>)
    requires DisciplinedRun(sha256, EMPTY, events) && Run(sha256, EMPTY, events).Some?
    ensures Inv(sha256, EMPTY) && Sound(sha256, Run(sha256, EMPTY, events).value)
  {
    DisciplinedRunsStaySound(sha256, EMPTY, events);
  }

  // ----- objects are never changed and never lost -----

  ghost predicate SameObjectsExcept(d: Disk, d': Disk, keys: set<Oid>) {
    forall key :: key !in keys ==> Content(d', Final(key)) == Content(d, Final(key))
  }

  /**
   A single step adds at most one object, under the name its content hashes to, and only the final rename of a checked
   upload does so: a failing, cancelled or unfinished upload never touches an object path.
   */
  lemma StepAddsAtMostOne(sha256: Bytes -> Oid, d: Disk, e: Event)
    requires Inv(sha256, d) && Disciplined(d, e) && Step(sha256, d, e).Some?
    ensures var d' := Step(sha256, d, e).value;
            if e.Rename? then
              var key := d.writers[e.w].key;
              && SameObjectsExcept(d, d', {key})
              && Content(d, Final(key)) == None
              && Content(d', Final(key)).Some? && sha256(Content(d', Final(key)).value) == key
            else SameObjectsExcept(d, d', {})
  {
    if e.Rename? {
      RenameAddsOne(sha256, d, e.w);
    } else {
      OthersAddNone(sha256, d, e);
    }
  }

  lemma RenameAddsOne(sha256: Bytes -> Oid, d: Disk, w: nat)
    requires Inv(sha256, d) && Step(sha256, d, Rename(w)).Some?
    ensures var d', key := Step(sha256, d, Rename(w)).value, d.writers[w].key;
            && SameObjectsExcept(d, d', {key})
            && Content(d, Final(key)) == None
            && Content(d', Final(key)).Some? && sha256(Content(d', Final(key)).value) == key
  {
    assert WriterOk(sha256, d, d.writers[w]);
    Renamed(d, Step(sha256, d, Rename(w)).value, d.writers[w].key);
  }

  lemma Renamed(d: Disk, d': Disk, key: Oid)
    requires Temporary(key) in d.names && d'.inodes == d.inodes
    requires d'.names == d.names[Final(key) := d.names[Temporary(key)]] - {Temporary(key)}
    ensures SameObjectsExcept(d, d', {key}) && Content(d', Final(key)) == Content(d, Temporary(key))
  {
  }

  lemma OthersAddNone(sha256: Bytes -> Oid, d: Disk, e: Event)
    requires Inv(sha256, d) && !e.Rename? && Step(sha256, d, e).Some?
    ensures SameObjectsExcept(d, Step(sha256, d, e).value, {})
  {
    match e
    case Chunk(w, data) => ChunkAddsNone(sha256, d, w, data);
    case MadeParent(w) =>
      if Temporary(d.writers[w].key) !in d.names {
        OpeningAddsNone(sha256, d, w);
      }
    case Open(w) => OpeningAddsNone(sha256, d, w);
    case Unlinked(w) => UnlinkAddsNone(d, Step(sha256, d, e).value, d.writers[w].key);
    case BodyRaises(w) => UnlinkAddsNone(d, Step(sha256, d, e).value, d.writers[w].key);
    case BodyEnds(w) => UnlinkAddsNone(d, Step(sha256, d, e).value, d.writers[w].key);
    case _ =>
  }

  lemma ChunkAddsNone(sha256: Bytes -> Oid, d: Disk, w: nat, data: Bytes)
    requires Inv(sha256, d) && Step(sha256, d, Chunk(w, data)).Some?
    ensures SameObjectsExcept(d, Step(sha256, d, Chunk(w, data)).value, {})
  {
    assert WriterOk(sha256, d, d.writers[w]);
  }

  lemma OpeningAddsNone(sha256: Bytes -> Oid, d: Disk, w: nat)
    requires Inv(sha256, d) && w in d.writers && (d.writers[w].Starting? || d.writers[w].Opening?)
    ensures SameObjectsExcept(d, OpenForWriting(d, w, d.writers[w]), {})
  {
  }

  lemma UnlinkAddsNone(d: Disk, d': Disk, key: Oid)
    requires d'.inodes == d.inodes && (d'.names == d.names || d'.names == d.names - {Temporary(key)})
    ensures SameObjectsExcept(d, d', {})
  {
  }

  ghost predicate KeepsObjects(d: Disk, d': Disk) {
    forall key: Oid :: Content(d, Final(key)).Some? ==> Content(d', Final(key)) == Content(d, Final(key))
  }

  /** Over a whole run no object changes and none disappears. */
  lemma {:induction false} RunsKeepObjects(sha256: Bytes -> Oid, d: Disk, events: seq<Event>)
    requires Inv(sha256, d) && DisciplinedRun(sha256, d, events) && Run(sha256, d, events).Some?
    ensures KeepsObjects(d, Run(sha256, d, events).value)
  {
    if events != [] {
      var init := events[..|events| - 1];
      RunsKeepObjects(sha256, d, init);
      DisciplinedRunsStaySound(sha256, d, init);
      StepAddsAtMostOne(sha256, Run(sha256, d, init).value, events[|events| - 1]);
    }
  }

  lemma {:induction false} RunConcat(sha256: Bytes -> Oid, d: Disk, first: seq<Event>, more: seq<Event>)
    requires Run(sha256, d, first).Some?
    ensures Run(sha256, d, first + more) == Run(sha256, Run(sha256, d, first).value, more)
  {
    if more == [] {
      assert first + more == first;
    } else {
      RunConcat(sha256, d, first, more[..|more| - 1]);
      assert (first + more)[..|first + more| - 1] == first + more[..|more| - 1];
    }
  }

  /** A run of one event after another. */
  lemma RunNext(sha256: Bytes -> Oid, d: Disk, events: seq<Event>, d': Disk, e: Event)
    requires Run(sha256, d, events) == Some(d')
    ensures Run(sha256, d, events + [e]) == Step(sha256, d', e)
  {
    assert (events + [e])[..|events + [e]| - 1] == events;
  }

  // ----- a few steps in a row -----

  lemma FourSteps(sha256: Bytes -> Oid, d: Disk, d1: Disk, d2: Disk, d3: Disk, d4: Disk,
                  e1: Event, e2: Event, e3: Event, e4: Event)
    requires Step(sha256, d, e1) == Some(d1) && Step(sha256, d1, e2) == Some(d2)
    requires Step(sha256, d2, e3) == Some(d3) && Step(sha256, d3, e4) == Some(d4)
    ensures Run(sha256, d, [e1, e2, e3, e4]) == Some(d4)
  {
    ThreeSteps(sha256, d, d1, d2, d3, e1, e2, e3);
    RunNext(sha256, d, [e1, e2, e3], d3, e4);
    assert [e1, e2, e3] + [e4] == [e1, e2, e3, e4];
  }

  lemma ThreeSteps(sha256: Bytes -> Oid, d: Disk, d1: Disk, d2: Disk, d3: Disk, e1: Event, e2: Event, e3: Event)
    requires Step(sha256, d, e1) == Some(d1) && Step(sha256, d1, e2) == Some(d2) && Step(sha256, d2, e3) == Some(d3)
    ensures Run(sha256, d, [e1, e2, e3]) == Some(d3)
  {
    assert Run(sha256, d, []) == Some(d);
    RunNext(sha256, d, [], d, e1);
    RunNext(sha256, d, [e1], d1, e2);
    RunNext(sha256, d, [e1, e2], d2, e3);
    assert [] + [e1] == [e1] && [e1] + [e2] == [e1, e2] && [e1, e2] + [e3] == [e1, e2, e3];
  }

  // ----- an upload that is alone on its object behaves like the sequential one -----

  function ChunkEvents(w: nat, chunks: seq<Bytes>): seq<Event> {
    if chunks == [] then [] else ChunkEvents(w, chunks[..|chunks| - 1]) + [Chunk(w, chunks[|chunks| - 1])]
  }

  function OpeningEvents(stale: bool, w: nat, oid: string, expected: int): seq<Event> {
    if stale then [Begin(w, oid, expected), MadeParent(w), Unlinked(w), Open(w)]
    else [Begin(w, oid, expected), MadeParent(w)]
  }

  /** How the body came to its end, and what the checks made of it. */
  datatype Ending = Raised | Refused | Passed

  function ClosingEvents(ending: Ending, w: nat): seq<Event> {
    match ending
    case Raised => [BodyRaises(w)]
    case Refused => [BodyEnds(w)]
    case Passed => [BodyEnds(w), Rename(w)]
  }

  /** All pieces of one upload; the rename happens only when the checks pass. */
  function UploadEvents(stale: bool, ending: Ending, w: nat, oid: string, expected: int, chunks: seq<Bytes>)
    : seq<Event>
  {
    OpeningEvents(stale, w, oid, expected) + ChunkEvents(w, chunks) + ClosingEvents(ending, w)
  }

  /** Upload w has reached the given stage, and no object has changed since d. */
  ghost predicate Phase(sha256: Bytes -> Oid, d: Disk, d': Disk, w: nat, s: Writer) {
    Inv(sha256, d') && SameObjectsExcept(d, d', {}) && d'.writers == d.writers[w := s]
  }

  lemma PhaseStep(sha256: Bytes -> Oid, d: Disk, d1: Disk, w: nat, s1: Writer, e: Event, d2: Disk, s2: Writer)
    requires Phase(sha256, d, d1, w, s1) && !e.Crash? && e.w == w && !e.Begin? && !e.Rename?
    requires Step(sha256, d1, e) == Some(d2) && d2.writers == d1.writers[w := s2]
    ensures Phase(sha256, d, d2, w, s2)
  {
    QuietStep(sha256, d, d1, e, d2);
    Overwritten(d.writers, d1.writers, d2.writers, w, s1, s2);
  }

  lemma Overwritten<K, V>(m: map<K, V>, m1: map<K, V>, m2: map<K, V>, k: K, v1: V, v2: V)
    requires m1 == m[k := v1] && m2 == m1[k := v2]
    ensures m2 == m[k := v2]
  {
  }

  lemma QuietStep(sha256: Bytes -> Oid, d: Disk, d1: Disk, e: Event, d2: Disk)
    requires Inv(sha256, d1) && SameObjectsExcept(d, d1, {}) && Step(sha256, d1, e) == Some(d2)
    requires !e.Begin? && !e.Rename?
    ensures Inv(sha256, d2) && SameObjectsExcept(d, d2, {})
  {
    StepKeeps(sha256, d1, e);
    StepAddsAtMostOne(sha256, d1, e);
    SameTwice(d, d1, d2);
  }

  lemma SameTwice(d: Disk, d1: Disk, d2: Disk)
    requires SameObjectsExcept(d, d1, {}) && SameObjectsExcept(d1, d2, {})
    ensures SameObjectsExcept(d, d2, {})
  {
  }

  lemma PhaseBegin(sha256: Bytes -> Oid, d: Disk, w: nat, oid: string, key: Oid, expected: int) returns (d': Disk)
    requires Inv(sha256, d) && w !in d.writers && ValidOid(oid) && key == Lower(oid) && expected >= 0
    requires Final(key) !in d.names && !InFlight(d, key)
    ensures Step(sha256, d, Begin(w, oid, expected)) == Some(d') && d'.names == d.names
    ensures Phase(sha256, d, d', w, Starting(oid, key, expected))
  {
    var e := Begin(w, oid, expected);
    d' := d.(writers := d.writers[w := Starting(oid, key, expected)]);
    LowerValid(oid);
    assert Step(sha256, d, e) == Some(d');
    StepKeeps(sha256, d, e);
    StepAddsAtMostOne(sha256, d, e);
  }

  lemma PhaseOpen(sha256: Bytes -> Oid, d: Disk, d1: Disk, w: nat, s: Writer, e: Event) returns (d': Disk, inode: nat)
    requires Phase(sha256, d, d1, w, s) && (s.Starting? || s.Opening?)
    requires e == (if s.Starting? then MadeParent(w) else Open(w))
    requires s.Starting? ==> Temporary(s.key) !in d1.names
    ensures Step(sha256, d1, e) == Some(d')
    ensures Phase(sha256, d, d', w, Streaming(s.oid, s.key, s.expected, inode, []))
  {
    d' := OpenForWriting(d1, w, s);
    inode := d'.writers[w].inode;
    assert Step(sha256, d1, e) == Some(d');
    PhaseStep(sha256, d, d1, w, s, e, d', d'.writers[w]);
  }

  lemma UploadOpensFresh(sha256: Bytes -> Oid, d: Disk, w: nat, oid: string, key: Oid, expected: int)
    returns (d': Disk, inode: nat)
    requires Inv(sha256, d) && w !in d.writers && ValidOid(oid) && key == Lower(oid) && expected >= 0
    requires Final(key) !in d.names && !InFlight(d, key) && Temporary(key) !in d.names
    ensures Run(sha256, d, OpeningEvents(false, w, oid, expected)) == Some(d')
    ensures Phase(sha256, d, d', w, Streaming(oid, key, expected, inode, []))
  {
    var d1 := PhaseBegin(sha256, d, w, oid, key, expected);
    d', inode := PhaseOpen(sha256, d, d1, w, Starting(oid, key, expected), MadeParent(w));
    TwoSteps(sha256, d, d1, d', Begin(w, oid, expected), MadeParent(w));
  }

  lemma TwoSteps(sha256: Bytes -> Oid, d: Disk, d1: Disk, d2: Disk, e1: Event, e2: Event)
    requires Step(sha256, d, e1) == Some(d1) && Step(sha256, d1, e2) == Some(d2)
    ensures Run(sha256, d, [e1, e2]) == Some(d2)
  {
    OneStep(sha256, d, e1);
    assert [e1] + [e2] == [e1, e2];
    RunNext(sha256, d, [e1], d1, e2);
  }

  lemma OneStep(sha256: Bytes -> Oid, d: Disk, e: Event)
    ensures Run(sha256, d, [e]) == Step(sha256, d, e)
  {
    assert [e][..0] == [];
    assert Run(sha256, d, [e][..0]) == Some(d);
  }

  lemma UploadOpensStale(sha256: Bytes -> Oid, d: Disk, w: nat, oid: string, key: Oid, expected: int)
    returns (d': Disk, inode: nat)
    requires Inv(sha256, d) && w !in d.writers && ValidOid(oid) && key == Lower(oid) && expected >= 0
    requires Final(key) !in d.names && !InFlight(d, key) && Temporary(key) in d.names
    ensures Run(sha256, d, OpeningEvents(true, w, oid, expected)) == Some(d')
    ensures Phase(sha256, d, d', w, Streaming(oid, key, expected, inode, []))
  {
    var s1, s2, s3 := Starting(oid, key, expected), Scrubbing(oid, key, expected), Opening(oid, key, expected);
    var d1 := PhaseBegin(sha256, d, w, oid, key, expected);
    var d2 := d1.(writers := d1.writers[w := s2]);
    PhaseStep(sha256, d, d1, w, s1, MadeParent(w), d2, s2);
    var d3 := d2.(names := d2.names - {Temporary(key)}, writers := d2.writers[w := s3]);
    PhaseStep(sha256, d, d2, w, s2, Unlinked(w), d3, s3);
    d', inode := PhaseOpen(sha256, d, d3, w, s3, Open(w));
    FourSteps(sha256, d, d1, d2, d3, d', Begin(w, oid, expected), MadeParent(w), Unlinked(w), Open(w));
  }

  lemma {:induction false} UploadStreams(
      sha256: Bytes -> Oid, d: Disk, d1: Disk, w: nat, s: Writer, chunks: seq<Bytes>) returns (d': Disk)
    requires s.Streaming? && s.hashed == [] && Phase(sha256, d, d1, w, s)
    ensures Run(sha256, d1, ChunkEvents(w, chunks)) == Some(d')
    ensures Phase(sha256, d, d', w, s.(hashed := Concat(chunks)))
  {
    if chunks == [] {
      d' := d1;
    } else {
      var init, last := chunks[..|chunks| - 1], chunks[|chunks| - 1];
      var before := UploadStreams(sha256, d, d1, w, s, init);
      d' := StreamOne(sha256, d, before, w, s.(hashed := Concat(init)), last);
      RunNext(sha256, d1, ChunkEvents(w, init), before, Chunk(w, last));
    }
  }

  lemma StreamOne(sha256: Bytes -> Oid, d: Disk, d1: Disk, w: nat, s: Writer, data: Bytes) returns (d': Disk)
    requires s.Streaming? && Phase(sha256, d, d1, w, s)
    ensures Step(sha256, d1, Chunk(w, data)) == Some(d')
    ensures Phase(sha256, d, d', w, s.(hashed := s.hashed + data))
  {
    assert WriterOk(sha256, d1, d1.writers[w]);
    d' := Step(sha256, d1, Chunk(w, data)).value;
    PhaseStep(sha256, d, d1, w, s, Chunk(w, data), d', s.(hashed := s.hashed + data));
  }

  lemma UploadFails(sha256: Bytes -> Oid, d: Disk, d1: Disk, w: nat, s: Writer, ending: Ending) returns (d': Disk)
    requires s.Streaming? && Phase(sha256, d, d1, w, s) && w !in d.writers
    requires ending.Raised? || (ending.Refused? && (|s.hashed| != s.expected || sha256(s.hashed) != s.oid))
    ensures Run(sha256, d1, ClosingEvents(ending, w)) == Some(d')
    ensures Inv(sha256, d') && SameObjectsExcept(d, d', {}) && d'.writers == d.writers
  {
    var e := if ending.Raised? then BodyRaises(w) else BodyEnds(w);
    d' := GiveUp(d1, w, s.key);
    QuietStep(sha256, d, d1, e, d');
    OneStep(sha256, d1, e);
  }

  lemma UploadSucceeds(sha256: Bytes -> Oid, d: Disk, d1: Disk, w: nat, s: Writer) returns (d': Disk)
    requires s.Streaming? && Phase(sha256, d, d1, w, s) && w !in d.writers
    requires |s.hashed| == s.expected && sha256(s.hashed) == s.oid
    ensures Run(sha256, d1, ClosingEvents(Passed, w)) == Some(d')
    ensures Inv(sha256, d') && d'.writers == d.writers
    ensures SameObjectsExcept(d, d', {s.key}) && Content(d', Final(s.key)) == Some(s.hashed)
  {
    assert WriterOk(sha256, d1, d1.writers[w]);
    var s2 := Renaming(s.oid, s.key);
    var d2 := d1.(writers := d1.writers[w := s2]);
    PhaseStep(sha256, d, d1, w, s, BodyEnds(w), d2, s2);
    RenameFinishes(sha256, d, d2, w, s2);
    d' := Step(sha256, d2, Rename(w)).value;
    assert Content(d', Final(s.key)) == Some(d1.inodes[s.inode]);
    TwoSteps(sha256, d1, d2, d', BodyEnds(w), Rename(w));
  }

  lemma RenameFinishes(sha256: Bytes -> Oid, d: Disk, d1: Disk, w: nat, s: Writer)
    requires s.Renaming? && Phase(sha256, d, d1, w, s) && w !in d.writers
    ensures var d' := Step(sha256, d1, Rename(w)).value;
            Inv(sha256, d') && d'.writers == d.writers && SameObjectsExcept(d, d', {s.key})
  {
    StepKeeps(sha256, d1, Rename(w));
    StepAddsAtMostOne(sha256, d1, Rename(w));
  }

  /** The effect the sequential store promises for an upload: its content becomes the object, or no object changes. */
  ghost predicate UploadEffect(d: Disk, d': Disk, passes: bool, key: Oid, content: Bytes) {
    if passes then SameObjectsExcept(d, d', {key}) && Content(d', Final(key)) == Some(content)
    else SameObjectsExcept(d, d', {})
  }

  /** The checks pass exactly for a body that came to its end, of the announced size and the announced hash. */
  function EndingOf(sha256: Bytes -> Oid, raises: bool, oid: string, expected: int, content: Bytes): Ending {
    if raises then Raised else if |content| == expected && sha256(content) == oid then Passed else Refused
  }

  /**
   Refinement: cut into its pieces and run on its own, an upload has exactly the effect the sequential store promises.
   Its content becomes the object if the body does not raise and size and hash agree; otherwise no object changes.
   */
  lemma LoneUploadRefines(sha256: Bytes -> Oid, d: Disk, w: nat, oid: string, key: Oid, expected: int,
                          chunks: seq<Bytes>, raises: bool)
    returns (d': Disk)
    requires Inv(sha256, d) && w !in d.writers && ValidOid(oid) && key == Lower(oid) && expected >= 0
    requires Final(key) !in d.names && !InFlight(d, key)
    ensures var ending := EndingOf(sha256, raises, oid, expected, Concat(chunks));
            && Run(sha256, d, UploadEvents(Temporary(key) in d.names, ending, w, oid, expected, chunks)) == Some(d')
            && UploadEffect(d, d', ending.Passed?, key, Concat(chunks))
    ensures Inv(sha256, d') && d'.writers == d.writers
  {
    var content, stale := Concat(chunks), Temporary(key) in d.names;
    var ending := EndingOf(sha256, raises, oid, expected, content);
    var d1, inode;
    if stale {
      d1, inode := UploadOpensStale(sha256, d, w, oid, key, expected);
    } else {
      d1, inode := UploadOpensFresh(sha256, d, w, oid, key, expected);
    }
    var s := Streaming(oid, key, expected, inode, content);
    var d2 := UploadStreams(sha256, d, d1, w, s.(hashed := []), chunks);
    if ending.Passed? {
      d' := UploadSucceeds(sha256, d, d2, w, s);
    } else {
      d' := UploadFails(sha256, d, d2, w, s, ending);
    }
    JoinRuns(sha256, d, d1, d2, d', OpeningEvents(stale, w, oid, expected), ChunkEvents(w, chunks),
             ClosingEvents(ending, w));
  }

  lemma JoinRuns(sha256: Bytes -> Oid, d: Disk, d1: Disk, d2: Disk, d3: Disk,
                 a: seq<Event>, b: seq<Event>, c: seq<Event>)
    requires Run(sha256, d, a) == Some(d1) && Run(sha256, d1, b) == Some(d2) && Run(sha256, d2, c) == Some(d3)
    ensures Run(sha256, d, a + b + c) == Some(d3)
  {
    RunConcat(sha256, d, a, b);
    RunConcat(sha256, d, a + b, c);
  }
}
