/**
 An upload among others. Whatever the uploads of other objects do in between, an upload has the effect it has when it
 runs on its own: what a run does to one object is decided by the steps of that object's upload alone.
 */
module Interleaving {
  import opened Prelude
  import opened ObjectStore
  import opened Text
  import opened ConcurrentStore
  import opened Locality

  // ----- the part of a disk that one upload sees -----

  /** Equal stages; only the numbers of the open files may differ. */
  ghost predicate Alike(s: Writer, t: Writer) {
    if s.Streaming? && t.Streaming? then s.(inode := t.inode) == t else s == t
  }

  ghost predicate OnlyUpload(d: Disk, w: nat, key: Oid) {
    forall v :: v in d.writers ==> (v == w <==> d.writers[v].key == key)
  }

  ghost predicate SameView(d: Disk, t: Disk, w: nat, key: Oid) {
    && OnlyUpload(d, w, key) && OnlyUpload(t, w, key)
    && Content(d, Final(key)) == Content(t, Final(key))
    && Content(d, Temporary(key)) == Content(t, Temporary(key))
    && (w in d.writers <==> w in t.writers) && (w in d.writers ==> Alike(d.writers[w], t.writers[w]))
  }

  /** A step of another object's upload is not seen. */
  lemma OthersUnseen(sha256: Bytes -> Oid, d: Disk, t: Disk, w: nat, key: Oid, e: Event)
    requires Inv(sha256, d) && SameView(d, t, w, key) && !e.Crash? && e.w != w && Step(sha256, d, e).Some?
    requires e.Begin? ==> Lower(e.oid) != key
    ensures SameView(Step(sha256, d, e).value, t, w, key)
  {
    var d' := Step(sha256, d, e).value;
    InvIsTidy(sha256, d);
    StepIsLocal(sha256, d, e);
    OutOfReach(d, d', e.w, Subject(d, e), key);
    assert SameWriter(d, d', w);
    forall v | v in d'.writers ensures v == w <==> d'.writers[v].key == key {
      if v != e.w {
        assert SameWriter(d, d', v);
      }
    }
  }

  // ----- the upload's own steps -----

  lemma AlikeStaged(d: Disk, t: Disk, w: nat, key: Oid, s: Writer)
    requires SameView(d, t, w, key) && s.key == key && !s.Streaming?
    ensures SameView(d.(writers := d.writers[w := s]), t.(writers := t.writers[w := s]), w, key)
  {
  }

  lemma AlikeGone(d: Disk, t: Disk, w: nat, key: Oid)
    requires SameView(d, t, w, key)
    ensures SameView(d.(writers := d.writers - {w}), t.(writers := t.writers - {w}), w, key)
  {
  }

  lemma AlikeUnlinked(d: Disk, t: Disk, w: nat, key: Oid)
    requires SameView(d, t, w, key)
    ensures SameView(d.(names := d.names - {Temporary(key)}), t.(names := t.names - {Temporary(key)}), w, key)
  {
    assert Content(d.(names := d.names - {Temporary(key)}), Final(key)) == Content(d, Final(key));
  }

  lemma OpenedFile(d: Disk, w: nat, s: Writer)
    requires Names(d) && (s.Starting? || s.Opening?)
    ensures var d' := OpenForWriting(d, w, s);
            && Content(d', Temporary(s.key)) == Some([]) && Content(d', Final(s.key)) == Content(d, Final(s.key))
            && w in d'.writers && d'.writers == d.writers[w := d'.writers[w]]
            && Alike(d'.writers[w], Streaming(s.oid, s.key, s.expected, 0, []))
  {
  }

  lemma AlikeOpened(d: Disk, t: Disk, w: nat, key: Oid, s: Writer)
    requires Names(d) && Names(t) && SameView(d, t, w, key) && (s.Starting? || s.Opening?) && s.key == key
    ensures SameView(OpenForWriting(d, w, s), OpenForWriting(t, w, s), w, key)
  {
    OpenedFile(d, w, s);
    OpenedFile(t, w, s);
  }

  lemma WrittenFile(d: Disk, w: nat, s: Writer, data: Bytes)
    requires Names(d) && s.Streaming? && Temporary(s.key) in d.names && d.names[Temporary(s.key)] == s.inode
    ensures s.inode in d.inodes
    ensures var d' := Written(d, w, s, data);
            && Content(d', Temporary(s.key)) == Some(d.inodes[s.inode] + data)
            && Content(d', Final(s.key)) == Content(d, Final(s.key))
  {
  }

  lemma AlikeWritten(sha256: Bytes -> Oid, d: Disk, t: Disk, w: nat, key: Oid, data: Bytes)
    requires Inv(sha256, d) && Inv(sha256, t) && SameView(d, t, w, key) && w in d.writers && d.writers[w].Streaming?
    ensures d.writers[w].inode in d.inodes && t.writers[w].inode in t.inodes
    ensures SameView(Written(d, w, d.writers[w], data), Written(t, w, t.writers[w], data), w, key)
  {
    assert WriterOk(sha256, d, d.writers[w]) && WriterOk(sha256, t, t.writers[w]);
    WrittenFile(d, w, d.writers[w], data);
    WrittenFile(t, w, t.writers[w], data);
  }

  lemma AlikeRenamed(d: Disk, t: Disk, w: nat, key: Oid)
    requires Names(d) && Names(t) && SameView(d, t, w, key) && Temporary(key) in d.names && Temporary(key) in t.names
    ensures SameView(d.(names := d.names[Final(key) := d.names[Temporary(key)]] - {Temporary(key)},
                        writers := d.writers - {w}),
                     t.(names := t.names[Final(key) := t.names[Temporary(key)]] - {Temporary(key)},
                        writers := t.writers - {w}), w, key)
  {
    Renamed(d, d.(names := d.names[Final(key) := d.names[Temporary(key)]] - {Temporary(key)},
                  writers := d.writers - {w}), key);
    Renamed(t, t.(names := t.names[Final(key) := t.names[Temporary(key)]] - {Temporary(key)},
                  writers := t.writers - {w}), key);
  }

  lemma SameFiles(sha256: Bytes -> Oid, d: Disk, t: Disk, w: nat, key: Oid)
    requires Inv(sha256, d) && Inv(sha256, t) && SameView(d, t, w, key)
    ensures Temporary(key) in d.names <==> Temporary(key) in t.names
    ensures Final(key) in d.names <==> Final(key) in t.names
  {
  }

  lemma GivenUpAlike(d: Disk, t: Disk, w: nat, key: Oid)
    requires SameView(d, t, w, key)
    ensures SameView(GiveUp(d, w, key), GiveUp(t, w, key), w, key)
  {
    AlikeUnlinked(d, t, w, key);
    AlikeGone(d.(names := d.names - {Temporary(key)}), t.(names := t.names - {Temporary(key)}), w, key);
  }

  /** Both steps can happen, and the views stay the same. */
  ghost predicate StepsAlike(sha256: Bytes -> Oid, d: Disk, t: Disk, w: nat, key: Oid, e: Event) {
    && Step(sha256, d, e).Some? && Step(sha256, t, e).Some?
    && SameView(Step(sha256, d, e).value, Step(sha256, t, e).value, w, key)
  }

  lemma BeginAlike(sha256: Bytes -> Oid, d: Disk, t: Disk, w: nat, key: Oid, e: Event)
    requires Inv(sha256, d) && Inv(sha256, t) && SameView(d, t, w, key) && e.Begin? && e.w == w && Lower(e.oid) == key
    requires Step(sha256, d, e).Some?
    ensures StepsAlike(sha256, d, t, w, key, e) && Disciplined(t, e)
  {
    SameFiles(sha256, d, t, w, key);
    AlikeStaged(d, t, w, key, Starting(e.oid, key, e.expected));
  }

  lemma MadeParentAlike(sha256: Bytes -> Oid, d: Disk, t: Disk, w: nat, key: Oid)
    requires Inv(sha256, d) && Inv(sha256, t) && SameView(d, t, w, key) && Step(sha256, d, MadeParent(w)).Some?
    ensures StepsAlike(sha256, d, t, w, key, MadeParent(w))
  {
    var s := d.writers[w];
    SameFiles(sha256, d, t, w, key);
    if Temporary(key) in d.names {
      AlikeStaged(d, t, w, key, Scrubbing(s.oid, s.key, s.expected));
    } else {
      AlikeOpened(d, t, w, key, s);
    }
  }

  lemma UnlinkedAlike(sha256: Bytes -> Oid, d: Disk, t: Disk, w: nat, key: Oid)
    requires SameView(d, t, w, key) && Step(sha256, d, Unlinked(w)).Some?
    ensures StepsAlike(sha256, d, t, w, key, Unlinked(w))
  {
    var s := d.writers[w];
    if s.Abandoned? {
      GivenUpAlike(d, t, w, key);
    } else {
      AlikeUnlinked(d, t, w, key);
      AlikeStaged(d.(names := d.names - {Temporary(key)}), t.(names := t.names - {Temporary(key)}), w, key,
                  Opening(s.oid, s.key, s.expected));
    }
  }

  lemma BodyEndsAlike(sha256: Bytes -> Oid, d: Disk, t: Disk, w: nat, key: Oid)
    requires SameView(d, t, w, key) && Step(sha256, d, BodyEnds(w)).Some?
    ensures StepsAlike(sha256, d, t, w, key, BodyEnds(w))
  {
    var s := d.writers[w];
    if |s.hashed| == s.expected && sha256(s.hashed) == s.oid {
      AlikeStaged(d, t, w, key, Renaming(s.oid, s.key));
    } else {
      GivenUpAlike(d, t, w, key);
    }
  }

  lemma RenameAlike(sha256: Bytes -> Oid, d: Disk, t: Disk, w: nat, key: Oid)
    requires Names(d) && Names(t) && SameView(d, t, w, key) && Step(sha256, d, Rename(w)).Some?
    requires Temporary(key) in d.names <==> Temporary(key) in t.names
    ensures StepsAlike(sha256, d, t, w, key, Rename(w))
  {
    if Temporary(key) in d.names {
      AlikeRenamed(d, t, w, key);
    } else {
      AlikeGone(d, t, w, key);
    }
  }

  lemma OpenAlike(sha256: Bytes -> Oid, d: Disk, t: Disk, w: nat, key: Oid)
    requires Names(d) && Names(t) && SameView(d, t, w, key) && Step(sha256, d, Open(w)).Some?
    ensures StepsAlike(sha256, d, t, w, key, Open(w))
  {
    AlikeOpened(d, t, w, key, d.writers[w]);
  }

  lemma ChunkAlike(sha256: Bytes -> Oid, d: Disk, t: Disk, w: nat, key: Oid, data: Bytes)
    requires Inv(sha256, d) && Inv(sha256, t) && SameView(d, t, w, key) && Step(sha256, d, Chunk(w, data)).Some?
    ensures StepsAlike(sha256, d, t, w, key, Chunk(w, data))
  {
    AlikeWritten(sha256, d, t, w, key, data);
  }

  lemma BodyRaisesAlike(sha256: Bytes -> Oid, d: Disk, t: Disk, w: nat, key: Oid)
    requires SameView(d, t, w, key) && Step(sha256, d, BodyRaises(w)).Some?
    ensures StepsAlike(sha256, d, t, w, key, BodyRaises(w))
  {
    GivenUpAlike(d, t, w, key);
  }

  lemma CancelAlike(sha256: Bytes -> Oid, d: Disk, t: Disk, w: nat, key: Oid)
    requires SameView(d, t, w, key) && Step(sha256, d, Cancel(w)).Some?
    ensures StepsAlike(sha256, d, t, w, key, Cancel(w))
  {
    var s := d.writers[w];
    if s.Scrubbing? {
      AlikeStaged(d, t, w, key, Abandoned(s.oid, s.key));
    } else if !s.Renaming? && !s.Abandoned? {
      AlikeGone(d, t, w, key);
    }
  }

  /** A step of the upload itself is possible in the one disk when it is in the other, and is seen alike. */
  lemma OwnStepAlike(sha256: Bytes -> Oid, d: Disk, t: Disk, w: nat, key: Oid, e: Event)
    requires Inv(sha256, d) && Inv(sha256, t) && SameView(d, t, w, key) && !e.Crash? && e.w == w
    requires Step(sha256, d, e).Some? && (e.Begin? ==> Lower(e.oid) == key)
    ensures StepsAlike(sha256, d, t, w, key, e) && Disciplined(t, e)
  {
    SameFiles(sha256, d, t, w, key);
    match e
    case Begin(_, _, _) => BeginAlike(sha256, d, t, w, key, e);
    case MadeParent(_) => MadeParentAlike(sha256, d, t, w, key);
    case Unlinked(_) => UnlinkedAlike(sha256, d, t, w, key);
    case Open(_) => OpenAlike(sha256, d, t, w, key);
    case Chunk(_, data) => ChunkAlike(sha256, d, t, w, key, data);
    case BodyRaises(_) => BodyRaisesAlike(sha256, d, t, w, key);
    case BodyEnds(_) => BodyEndsAlike(sha256, d, t, w, key);
    case Rename(_) => RenameAlike(sha256, d, t, w, key);
    case Cancel(_) => CancelAlike(sha256, d, t, w, key);
  }

  // ----- whole runs -----

  /** The steps of one upload. */
  function Own(events: seq<Event>, w: nat): seq<Event> {
    if events == [] then []
    else
      var before, last := Own(events[..|events| - 1], w), events[|events| - 1];
      if !last.Crash? && last.w == w then before + [last] else before
  }

  /** The process lives, this upload is of this object, and the others that begin are of other objects. */
  ghost predicate OneUploadOf(events: seq<Event>, w: nat, key: Oid) {
    forall e :: e in events ==> !e.Crash? && (e.Begin? ==> (e.w == w <==> Lower(e.oid) == key))
  }

  /** To one object a run does what its own upload's steps do when nothing else happens. */
  lemma {:induction false} RunProjects(sha256: Bytes -> Oid, d: Disk, events: seq<Event>, w: nat, key: Oid)
    requires Inv(sha256, d) && OnlyUpload(d, w, key) && OneUploadOf(events, w, key)
    requires DisciplinedRun(sha256, d, events) && Run(sha256, d, events).Some?
    ensures var own := Run(sha256, d, Own(events, w));
            && own.Some? && Inv(sha256, own.value) && SameView(Run(sha256, d, events).value, own.value, w, key)
  {
    if events != [] {
      var init, e := events[..|events| - 1], events[|events| - 1];
      assert e in events;
      RunProjects(sha256, d, init, w, key);
      DisciplinedRunsStaySound(sha256, d, init);
      var before, own := Run(sha256, d, init).value, Run(sha256, d, Own(init, w)).value;
      if e.w == w {
        OwnStepAlike(sha256, before, own, w, key, e);
        StepKeeps(sha256, own, e);
        RunNext(sha256, d, Own(init, w), own, e);
      } else {
        OthersUnseen(sha256, before, own, w, key, e);
      }
    }
  }

  /**
   Refinement among others: in any disciplined run in which an upload goes through all its pieces, however the uploads
   of other objects interleave with it, are refused, cancelled or succeed, its content becomes the object if the body
   does not raise and size and hash agree, and otherwise the object is not stored.
   */
  lemma UploadRefines(sha256: Bytes -> Oid, d: Disk, events: seq<Event>, w: nat, oid: string, key: Oid, expected: int,
                      chunks: seq<Bytes>, raises: bool)
    requires Inv(sha256, d) && w !in d.writers && ValidOid(oid) && key == Lower(oid) && expected >= 0
    requires Final(key) !in d.names && !InFlight(d, key) && OneUploadOf(events, w, key)
    requires DisciplinedRun(sha256, d, events) && Run(sha256, d, events).Some?
    requires Own(events, w) == UploadEvents(Temporary(key) in d.names,
                                            EndingOf(sha256, raises, oid, expected, Concat(chunks)),
                                            w, oid, expected, chunks)
    ensures var d' := Run(sha256, d, events).value;
            && w !in d'.writers && !InFlight(d', key)
            && Content(d', Final(key)) == if EndingOf(sha256, raises, oid, expected, Concat(chunks)).Passed?
                                          then Some(Concat(chunks)) else None
  {
    var own := LoneUploadRefines(sha256, d, w, oid, key, expected, chunks, raises);
    RunProjects(sha256, d, events, w, key);
  }
}
