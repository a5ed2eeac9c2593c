/** Uploads of different objects do not meet: a step of one leaves files and uploads of every other object alone. */
module Locality {
  import opened Prelude
  import opened ObjectStore
  import opened Text
  import opened ConcurrentStore

  // ----- what holds of the disk in any run, disciplined or not -----

  /** An open file lies below no path of another object. */
  ghost predicate OwnFiles(d: Disk) {
    forall w :: w in d.writers && d.writers[w].Streaming? ==>
                  && d.writers[w].inode in d.inodes && d.writers[w].inode < d.next
                  && forall p :: p in d.names && d.names[p] == d.writers[w].inode ==> p.key == d.writers[w].key
  }

  /** Only uploads of the same object can have the same file open. */
  ghost predicate FilesApart(d: Disk) {
    forall v, w :: (v in d.writers && w in d.writers && d.writers[v].Streaming? && d.writers[w].Streaming?
                    && d.writers[v].inode == d.writers[w].inode) ==> d.writers[v].key == d.writers[w].key
  }

  ghost predicate Tidy(d: Disk) {
    Names(d) && OwnFiles(d) && FilesApart(d)
  }

  lemma InvIsTidy(sha256: Bytes -> Oid, d: Disk)
    requires Inv(sha256, d)
    ensures Tidy(d)
  {
    forall w | w in d.writers ensures WriterOk(sha256, d, d.writers[w]) {}
  }

  // ----- the reach of a step -----

  /** The files a step of this upload may write to: the one at its temporary path, and the one it has open. */
  ghost predicate InReach(d: Disk, w: nat, key: Oid, inode: nat) {
    || (Temporary(key) in d.names && d.names[Temporary(key)] == inode)
    || (w in d.writers && d.writers[w].Streaming? && d.writers[w].inode == inode)
  }

  /** Only the paths of this object, files in reach and this upload itself have changed. */
  ghost predicate Local(d: Disk, d': Disk, w: nat, key: Oid) {
    && d.next <= d'.next && d.inodes.Keys <= d'.inodes.Keys
    && (forall p: Path :: p.key != key ==> SameName(d, d', p))
    && (forall v :: v != w ==> SameWriter(d, d', v))
    && (forall i :: i in d.inodes && i < d.next && !InReach(d, w, key, i) ==> d'.inodes[i] == d.inodes[i])
    && (w in d.writers ==> d.writers[w].key == key) && (w in d'.writers ==> d'.writers[w].key == key)
  }

  ghost predicate SameName(d: Disk, d': Disk, p: Path) {
    (p in d.names <==> p in d'.names) && (p in d.names ==> d.names[p] == d'.names[p])
  }

  ghost predicate SameWriter(d: Disk, d': Disk, v: nat) {
    (v in d.writers <==> v in d'.writers) && (v in d.writers ==> d.writers[v] == d'.writers[v])
  }

  /** The object an event is about. */
  function Subject(d: Disk, e: Event): string
    requires !e.Crash? && (e.Begin? || e.w in d.writers)
  {
    if e.Begin? then Lower(e.oid) else d.writers[e.w].key
  }

  // ----- the kinds of change -----

  /** The upload changes its stage, or ends; no file is touched, and no file is newly open. */
  lemma RestageLocal(d: Disk, w: nat, key: Oid, writers: map<nat, Writer>)
    requires Tidy(d) && (w in d.writers ==> d.writers[w].key == key) && (w in writers ==> writers[w].key == key)
    requires w in writers && writers[w].Streaming? ==> w in d.writers && writers[w] == d.writers[w]
    requires forall v :: v != w ==> (v in d.writers <==> v in writers) && (v in writers ==> writers[v] == d.writers[v])
    ensures var d' := d.(writers := writers); Tidy(d') && Local(d, d', w, key)
  {
  }

  /** As before, and the temporary path is gone too. */
  lemma UnlinkLocal(d: Disk, w: nat, key: Oid, writers: map<nat, Writer>)
    requires Tidy(d) && w in d.writers && d.writers[w].key == key && (w in writers ==> writers[w].key == key)
    requires w in writers ==> !writers[w].Streaming?
    requires forall v :: v != w ==> (v in d.writers <==> v in writers) && (v in writers ==> writers[v] == d.writers[v])
    ensures var d' := d.(names := d.names - {Temporary(key)}, writers := writers); Tidy(d') && Local(d, d', w, key)
  {
    RestageLocal(d, w, key, writers);
    UnlinkTidy(d.(writers := writers), key);
  }

  lemma UnlinkTidy(d: Disk, key: Oid)
    requires Tidy(d)
    ensures Tidy(d.(names := d.names - {Temporary(key)}))
  {
  }

  lemma TruncateLocal(d: Disk, w: nat, s: Writer)
    requires Tidy(d) && w in d.writers && d.writers[w] == s && (s.Starting? || s.Opening?)
    requires Temporary(s.key) in d.names
    ensures var d' := OpenForWriting(d, w, s); Tidy(d') && Local(d, d', w, s.key)
  {
    var d' := OpenForWriting(d, w, s);
    assert Names(d');
  }

  lemma CreateLocal(d: Disk, w: nat, s: Writer)
    requires Tidy(d) && w in d.writers && d.writers[w] == s && (s.Starting? || s.Opening?)
    requires Temporary(s.key) !in d.names
    ensures var d' := OpenForWriting(d, w, s); Tidy(d') && Local(d, d', w, s.key)
  {
    CreateTidy(d, w, s);
  }

  lemma CreateTidy(d: Disk, w: nat, s: Writer)
    requires Tidy(d) && w in d.writers && d.writers[w] == s && (s.Starting? || s.Opening?)
    requires Temporary(s.key) !in d.names
    ensures Tidy(OpenForWriting(d, w, s))
  {
    var d' := OpenForWriting(d, w, s);
    assert Names(d');
    assert OwnFiles(d');
    assert FilesApart(d');
  }

  /** A chunk is appended to the open file and to what the upload has hashed. */
  function Written(d: Disk, w: nat, s: Writer, data: Bytes): Disk
    requires s.Streaming? && s.inode in d.inodes
  {
    d.(inodes := d.inodes[s.inode := d.inodes[s.inode] + data],
       writers := d.writers[w := s.(hashed := s.hashed + data)])
  }

  lemma ChunkLocal(d: Disk, w: nat, s: Writer, data: Bytes)
    requires Tidy(d) && w in d.writers && d.writers[w] == s && s.Streaming?
    ensures s.inode in d.inodes
    ensures var d' := Written(d, w, s, data); Tidy(d') && Local(d, d', w, s.key)
  {
  }

  lemma RenameLocal(d: Disk, w: nat, s: Writer)
    requires Tidy(d) && w in d.writers && d.writers[w] == s && s.Renaming? && Temporary(s.key) in d.names
    ensures var d' := d.(names := d.names[Final(s.key) := d.names[Temporary(s.key)]] - {Temporary(s.key)},
                         writers := d.writers - {w});
            Tidy(d') && Local(d, d', w, s.key)
  {
  }

  lemma OpenLocal(d: Disk, w: nat, s: Writer)
    requires Tidy(d) && w in d.writers && d.writers[w] == s && (s.Starting? || s.Opening?)
    ensures var d' := OpenForWriting(d, w, s); Tidy(d') && Local(d, d', w, s.key)
  {
    if Temporary(s.key) in d.names {
      TruncateLocal(d, w, s);
    } else {
      CreateLocal(d, w, s);
    }
  }

  /** Every step stays within the reach of its upload, and keeps the disk tidy, whatever else is in flight. */
  lemma StepIsLocal(sha256: Bytes -> Oid, d: Disk, e: Event)
    requires Tidy(d) && !e.Crash? && Step(sha256, d, e).Some?
    ensures var d' := Step(sha256, d, e).value;
            Tidy(d') && IsOid(Subject(d, e)) && Local(d, d', e.w, Subject(d, e))
  {
    match e
    case Begin(w, oid, expected) => BeginLocal(sha256, d, e);
    case MadeParent(w) => MadeParentLocal(sha256, d, w);
    case Unlinked(w) => UnlinkedLocal(sha256, d, w);
    case Open(w) => OpenLocal(d, w, d.writers[w]);
    case Chunk(w, data) => ChunkLocal(d, w, d.writers[w], data);
    case BodyRaises(w) => UnlinkLocal(d, w, d.writers[w].key, d.writers - {w});
    case BodyEnds(w) => BodyEndsLocal(sha256, d, w);
    case Rename(w) =>
      if Temporary(d.writers[w].key) in d.names {
        RenameLocal(d, w, d.writers[w]);
      } else {
        RestageLocal(d, w, d.writers[w].key, d.writers - {w});
      }
    case Cancel(w) => RestageLocal(d, w, d.writers[w].key, Step(sha256, d, e).value.writers);
  }

  lemma BeginLocal(sha256: Bytes -> Oid, d: Disk, e: Event)
    requires Tidy(d) && e.Begin? && Step(sha256, d, e).Some?
    ensures IsOid(Lower(e.oid))
    ensures var d' := Step(sha256, d, e).value; Tidy(d') && Local(d, d', e.w, Lower(e.oid))
  {
    LowerValid(e.oid);
    RestageLocal(d, e.w, Lower(e.oid), Step(sha256, d, e).value.writers);
  }

  lemma MadeParentLocal(sha256: Bytes -> Oid, d: Disk, w: nat)
    requires Tidy(d) && Step(sha256, d, MadeParent(w)).Some?
    ensures var d' := Step(sha256, d, MadeParent(w)).value; Tidy(d') && Local(d, d', w, d.writers[w].key)
  {
    var s := d.writers[w];
    if Temporary(s.key) in d.names {
      RestageLocal(d, w, s.key, d.writers[w := Scrubbing(s.oid, s.key, s.expected)]);
    } else {
      OpenLocal(d, w, s);
    }
  }

  lemma UnlinkedLocal(sha256: Bytes -> Oid, d: Disk, w: nat)
    requires Tidy(d) && Step(sha256, d, Unlinked(w)).Some?
    ensures var d' := Step(sha256, d, Unlinked(w)).value; Tidy(d') && Local(d, d', w, d.writers[w].key)
  {
    var s := d.writers[w];
    if s.Abandoned? {
      UnlinkLocal(d, w, s.key, d.writers - {w});
    } else {
      UnlinkLocal(d, w, s.key, d.writers[w := Opening(s.oid, s.key, s.expected)]);
    }
  }

  lemma BodyEndsLocal(sha256: Bytes -> Oid, d: Disk, w: nat)
    requires Tidy(d) && Step(sha256, d, BodyEnds(w)).Some?
    ensures var d' := Step(sha256, d, BodyEnds(w)).value; Tidy(d') && Local(d, d', w, d.writers[w].key)
  {
    var s := d.writers[w];
    if |s.hashed| == s.expected && sha256(s.hashed) == s.oid {
      RestageLocal(d, w, s.key, d.writers[w := Renaming(s.oid, s.key)]);
    } else {
      UnlinkLocal(d, w, s.key, d.writers - {w});
    }
  }

  // ----- what a step cannot reach -----

  /** The content at another object's path, and in the file another object's upload has open, stays. */
  lemma OutOfReach(d: Disk, d': Disk, w: nat, key: Oid, other: Oid)
    requires Tidy(d) && Local(d, d', w, key) && other != key
    ensures forall p: Path :: p.key == other ==> SameName(d, d', p) && Content(d', p) == Content(d, p)
    ensures forall v :: v in d.writers && d.writers[v].key == other && d.writers[v].Streaming? ==>
                          d'.inodes[d.writers[v].inode] == d.inodes[d.writers[v].inode]
    ensures forall v :: (v in d'.writers && d'.writers[v].key == other) <==>
                        (v in d.writers && d.writers[v].key == other)
    ensures forall v :: v in d.writers && d.writers[v].key == other ==> SameWriter(d, d', v)
  {
    forall p: Path | p.key == other ensures SameName(d, d', p) && Content(d', p) == Content(d, p) {
      if p in d.names {
        assert !InReach(d, w, key, d.names[p]);
      }
    }
    forall v | v in d.writers && d.writers[v].key == other && d.writers[v].Streaming?
      ensures d'.inodes[d.writers[v].inode] == d.inodes[d.writers[v].inode]
    {
      assert !InReach(d, w, key, d.writers[v].inode);
    }
    forall v ensures (v in d'.writers && d'.writers[v].key == other) <==>
                     (v in d.writers && d.writers[v].key == other)
    {
      if v != w {
        assert SameWriter(d, d', v);
      }
    }
  }
}
