/**
 Which uploads may be let in beside those under way: exactly when a second upload of the same object does no harm to the
 store. All that is used of the hash is which contents it takes to the object's id.
 */
module Admission {
  import opened Prelude
  import opened ObjectStore
  import opened Text
  import opened ConcurrentStore
  import opened Locality

  // ----- two uploads of one object can store other content -----

  /** A run without further admissions. */
  ghost predicate Leads(sha256: Bytes -> Oid, d: Disk, events: seq<Event>, d': Disk) {
    Run(sha256, d, events) == Some(d') && forall e :: e in events ==> !e.Begin?
  }

  lemma LeadsOn(sha256: Bytes -> Oid, d: Disk, events: seq<Event>, d1: Disk, e: Event, d2: Disk)
    requires Leads(sha256, d, events, d1) && !e.Begin? && Step(sha256, d1, e) == Some(d2)
    ensures Leads(sha256, d, events + [e], d2)
  {
    RunNext(sha256, d, events, d1, e);
  }

  lemma {:induction false} LeadsDisciplined(sha256: Bytes -> Oid, d: Disk, events: seq<Event>)
    requires forall e :: e in events ==> !e.Begin?
    ensures DisciplinedRun(sha256, d, events)
  {
    if events != [] {
      LeadsDisciplined(sha256, d, events[..|events| - 1]);
    }
  }

  /** With this rest of the body the upload would succeed if left alone. */
  predicate CanSucceed(sha256: Bytes -> Oid, s: Writer, rest: Bytes) {
    match s
    case Streaming(oid, _, expected, _, hashed) => sha256(hashed + rest) == oid && |hashed + rest| == expected
    case Renaming(_, _) => true
    case Abandoned(_, _) => false
    case _ => sha256(rest) == s.oid && |rest| == s.expected
  }

  /** An upload past the removal of a stale file opens its own. */
  lemma OpenLeads(sha256: Bytes -> Oid, d0: Disk, events: seq<Event>, d: Disk, w: nat, s: Writer)
    returns (events': seq<Event>, d': Disk)
    requires Leads(sha256, d0, events, d) && w in d.writers && d.writers[w] == s
    requires s.Opening? || (s.Starting? && Temporary(s.key) !in d.names)
    ensures Leads(sha256, d0, events', d') && d' == OpenForWriting(d, w, s)
  {
    var e := if s.Opening? then Open(w) else MadeParent(w);
    d' := OpenForWriting(d, w, s);
    assert Step(sha256, d, e) == Some(d');
    events' := events + [e];
    LeadsOn(sha256, d0, events, d, e, d');
  }

  /** After the removal the file that is opened is a new one. */
  lemma ScrubLeads(sha256: Bytes -> Oid, d0: Disk, events: seq<Event>, d: Disk, w: nat, s: Writer)
    returns (events': seq<Event>, d': Disk)
    requires Leads(sha256, d0, events, d) && w in d.writers && d.writers[w] == s && s.Scrubbing?
    ensures Leads(sha256, d0, events', d')
    ensures d' == Disk(d.names[Temporary(s.key) := d.next], d.inodes[d.next := []], d.next + 1,
                       d.writers[w := Streaming(s.oid, s.key, s.expected, d.next, [])])
  {
    var s2, tmp := Opening(s.oid, s.key, s.expected), Temporary(s.key);
    var d1 := d.(names := d.names - {tmp}, writers := d.writers[w := s2]);
    assert Step(sha256, d, Unlinked(w)) == Some(d1);
    LeadsOn(sha256, d0, events, d, Unlinked(w), d1);
    events', d' := OpenLeads(sha256, d0, events + [Unlinked(w)], d1, w, s2);
    OpenedAnew(d, w, s2);
  }

  lemma OpenedAnew(d: Disk, w: nat, s: Writer)
    requires s.Opening?
    ensures var tmp := Temporary(s.key);
            OpenForWriting(d.(names := d.names - {tmp}, writers := d.writers[w := s]), w, s)
            == Disk(d.names[tmp := d.next], d.inodes[d.next := []], d.next + 1,
                    d.writers[w := Streaming(s.oid, s.key, s.expected, d.next, [])])
  {
    var tmp, streaming := Temporary(s.key), Streaming(s.oid, s.key, s.expected, d.next, []);
    assert (d.names - {tmp})[tmp := d.next] == d.names[tmp := d.next];
    assert d.writers[w := s][w := streaming] == d.writers[w := streaming];
  }

  lemma MadeParentLeads(sha256: Bytes -> Oid, d0: Disk, events: seq<Event>, d: Disk, w: nat, s: Writer)
    returns (events': seq<Event>, d': Disk)
    requires Leads(sha256, d0, events, d) && w in d.writers && d.writers[w] == s && s.Starting?
    requires Temporary(s.key) in d.names
    ensures Leads(sha256, d0, events', d')
    ensures d' == d.(writers := d.writers[w := Scrubbing(s.oid, s.key, s.expected)])
  {
    d' := d.(writers := d.writers[w := Scrubbing(s.oid, s.key, s.expected)]);
    assert Step(sha256, d, MadeParent(w)) == Some(d');
    events' := events + [MadeParent(w)];
    LeadsOn(sha256, d0, events, d, MadeParent(w), d');
  }

  /** The upload has a temporary file: its own if it is streaming, the checked one if it is renaming. */
  ghost predicate HasFile(d: Disk, s: Writer) {
    && (s.Streaming? || s.Renaming?)
    && Temporary(s.key) in d.names && d.names[Temporary(s.key)] < d.next
    && (s.Streaming? ==> d.names[Temporary(s.key)] == s.inode && s.inode in d.inodes)
  }

  predicate PreOpen(s: Writer) {
    s.Starting? || s.Scrubbing? || s.Opening?
  }

  /** Whatever stage the first upload is in, it gets to its file while the second one waits. */
  lemma FirstHasFile(sha256: Bytes -> Oid, d: Disk, w: nat, s: Writer, rest: Bytes)
    returns (events: seq<Event>, d': Disk, s': Writer)
    requires Names(d) && w in d.writers && d.writers[w] == s && CanSucceed(sha256, s, rest)
    requires s.Streaming? || s.Renaming? ==> HasFile(d, s)
    ensures Leads(sha256, d, events, d') && d'.writers == d.writers[w := s']
    ensures HasFile(d', s') && CanSucceed(sha256, s', rest) && s'.key == s.key
  {
    events, d', s' := [], d, s;
    assert Leads(sha256, d, [], d);
    if s.Starting? && Temporary(s.key) in d.names {
      events, d' := MadeParentLeads(sha256, d, [], d, w, s);
    }
    var stage := d'.writers[w];
    if stage.Scrubbing? {
      events, d' := ScrubLeads(sha256, d, events, d', w, stage);
    } else if stage.Starting? || stage.Opening? {
      events, d' := OpenLeads(sha256, d, events, d', w, stage);
    }
    s' := d'.writers[w];
    assert [] + rest == rest;
  }

  /** All of the body has come, and it is the right one. */
  predicate Complete(sha256: Bytes -> Oid, s: Writer) {
    s.Renaming? || (s.Streaming? && |s.hashed| == s.expected && sha256(s.hashed) == s.oid)
  }

  lemma BodyArrives(sha256: Bytes -> Oid, d0: Disk, events: seq<Event>, d: Disk, w: nat, s: Writer, rest: Bytes)
    returns (events': seq<Event>, d': Disk, s': Writer)
    requires Leads(sha256, d0, events, d) && HasFile(d, s) && CanSucceed(sha256, s, rest)
    requires w in d.writers && d.writers[w] == s
    ensures Leads(sha256, d0, events', d') && d'.writers == d.writers[w := s']
    ensures HasFile(d', s') && Complete(sha256, s') && s'.key == s.key
  {
    if s.Renaming? {
      events', d', s' := events, d, s;
    } else {
      s' := s.(hashed := s.hashed + rest);
      d' := d.(inodes := d.inodes[s.inode := d.inodes[s.inode] + rest], writers := d.writers[w := s']);
      assert Step(sha256, d, Chunk(w, rest)) == Some(d');
      events' := events + [Chunk(w, rest)];
      LeadsOn(sha256, d0, events, d, Chunk(w, rest), d');
    }
  }

  /** The temporary name leads to an empty file that the second upload has open. */
  ghost predicate Slipped(d: Disk, key: Oid, t: Writer) {
    && t.Streaming? && t.key == key
    && Temporary(key) in d.names && d.names[Temporary(key)] == t.inode
    && t.inode in d.inodes && d.inodes[t.inode] == []
  }

  /** Then the second upload opens the same temporary name: a new file, or the first one's, cut to nothing. */
  lemma SecondOpens(sha256: Bytes -> Oid, d0: Disk, events: seq<Event>, d: Disk, v: nat, s: Writer, t: Writer)
    returns (events': seq<Event>, d': Disk, t': Writer)
    requires Leads(sha256, d0, events, d) && HasFile(d, s)
    requires v in d.writers && d.writers[v] == t && PreOpen(t) && t.key == s.key
    ensures Leads(sha256, d0, events', d') && d'.writers == d.writers[v := t'] && Slipped(d', s.key, t')
  {
    events', d' := events, d;
    if t.Starting? {
      events', d' := MadeParentLeads(sha256, d0, events, d, v, t);
    }
    var stage := d'.writers[v];
    if stage.Scrubbing? {
      events', d' := ScrubLeads(sha256, d0, events', d', v, stage);
    } else {
      events', d' := OpenLeads(sha256, d0, events', d', v, stage);
    }
    t' := d'.writers[v];
    assert d'.writers == d.writers[v := t'];
  }

  /** The first upload passes its checks all the same. */
  lemma ChecksPass(sha256: Bytes -> Oid, d0: Disk, events: seq<Event>, d: Disk, w: nat, s: Writer)
    returns (events': seq<Event>, d': Disk)
    requires Leads(sha256, d0, events, d) && w in d.writers && d.writers[w] == s && Complete(sha256, s)
    ensures Leads(sha256, d0, events', d') && d' == d.(writers := d.writers[w := Renaming(s.oid, s.key)])
  {
    events', d' := events, d.(writers := d.writers[w := Renaming(s.oid, s.key)]);
    if s.Streaming? {
      assert Step(sha256, d, BodyEnds(w)) == Some(d');
      events' := events + [BodyEnds(w)];
      LeadsOn(sha256, d0, events, d, BodyEnds(w), d');
    } else {
      assert d' == d;
    }
  }

  /** It renames the second one's file, and the second one writes on into what is now an object. */
  lemma WrongFileRenamed(sha256: Bytes -> Oid, d0: Disk, events: seq<Event>, d: Disk, w: nat, v: nat, s: Writer,
                         t: Writer, data: Bytes) returns (events': seq<Event>, d': Disk)
    requires Leads(sha256, d0, events, d) && s.Renaming? && w != v && Slipped(d, s.key, t) && sha256(data) != s.key
    requires w in d.writers && d.writers[w] == s && v in d.writers && d.writers[v] == t
    ensures Leads(sha256, d0, events', d') && !Sound(sha256, d')
  {
    var d1 := d.(names := d.names[Final(s.key) := t.inode] - {Temporary(s.key)}, writers := d.writers - {w});
    assert Step(sha256, d, Rename(w)) == Some(d1);
    LeadsOn(sha256, d0, events, d, Rename(w), d1);
    d' := d1.(inodes := d1.inodes[t.inode := [] + data], writers := d1.writers[v := t.(hashed := t.hashed + data)]);
    assert Step(sha256, d1, Chunk(v, data)) == Some(d');
    events' := events + [Rename(w)] + [Chunk(v, data)];
    LeadsOn(sha256, d0, events + [Rename(w)], d1, Chunk(v, data), d');
    assert [] + data == data;
    assert Final(s.key) in d'.names && d'.inodes[d'.names[Final(s.key)]] == data;
  }

  /**
   Two uploads of one object, one of which would succeed while the other has yet to open its file: without any further
   admission an object path can come to hold other content. The second one's own body plays no part.
   */
  lemma OverlapBreaksStore(sha256: Bytes -> Oid, d: Disk, w: nat, v: nat, rest: Bytes, data: Bytes)
    returns (events: seq<Event>, d': Disk)
    requires Names(d) && w in d.writers && v in d.writers && w != v && d.writers[w].key == d.writers[v].key
    requires d.writers[w].Streaming? || d.writers[w].Renaming? ==> HasFile(d, d.writers[w])
    requires CanSucceed(sha256, d.writers[w], rest) && PreOpen(d.writers[v]) && sha256(data) != d.writers[w].key
    ensures Leads(sha256, d, events, d') && !Sound(sha256, d')
  {
    var d1, d2, d3, d4, s1, s2, t;
    events, d1, s1 := FirstHasFile(sha256, d, w, d.writers[w], rest);
    events, d2, s2 := BodyArrives(sha256, d, events, d1, w, s1, rest);
    events, d3, t := SecondOpens(sha256, d, events, d2, v, s2, d2.writers[v]);
    events, d4 := ChecksPass(sha256, d, events, d3, w, s2);
    events, d' := WrongFileRenamed(sha256, d, events, d4, w, v, Renaming(s2.oid, s2.key), t, data);
  }

  // ----- when a second upload does no harm -----

  /** No rest of the body lets this upload succeed any more. */
  ghost predicate Hopeless(sha256: Bytes -> Oid, s: Writer) {
    forall rest :: !CanSucceed(sha256, s, rest)
  }

  lemma HopelessStays(sha256: Bytes -> Oid, s: Writer, data: Bytes)
    requires s.Streaming? && Hopeless(sha256, s)
    ensures Hopeless(sha256, s.(hashed := s.hashed + data))
  {
    var s' := s.(hashed := s.hashed + data);
    forall rest ensures !CanSucceed(sha256, s', rest) {
      assert !CanSucceed(sha256, s, data + rest);
      Associative(s.hashed, data, rest);
    }
  }

  lemma HopelessOpens(sha256: Bytes -> Oid, s: Writer, inode: nat)
    requires PreOpen(s)
    ensures Hopeless(sha256, Streaming(s.oid, s.key, s.expected, inode, [])) <==> Hopeless(sha256, s)
  {
    var s' := Streaming(s.oid, s.key, s.expected, inode, []);
    forall rest ensures CanSucceed(sha256, s', rest) == CanSucceed(sha256, s, rest) {
      assert [] + rest == rest;
    }
    assert Hopeless(sha256, s') ==> forall rest :: !CanSucceed(sha256, s, rest) by {
      if Hopeless(sha256, s') {
        forall rest ensures !CanSucceed(sha256, s, rest) {
          assert !CanSucceed(sha256, s', rest);
        }
      }
    }
  }

  lemma HopelessBeforeOpening(sha256: Bytes -> Oid, s: Writer, s': Writer)
    requires PreOpen(s) && PreOpen(s') && s.oid == s'.oid && s.expected == s'.expected
    ensures Hopeless(sha256, s') <==> Hopeless(sha256, s)
  {
    forall rest ensures CanSucceed(sha256, s', rest) == CanSucceed(sha256, s, rest) {}
    assert Hopeless(sha256, s) ==> forall rest :: !CanSucceed(sha256, s', rest);
    assert Hopeless(sha256, s') ==> forall rest :: !CanSucceed(sha256, s, rest);
  }

  /** The other uploads of the same object are past opening their file and cannot succeed. */
  ghost predicate Unrivalled(sha256: Bytes -> Oid, d: Disk, w: nat)
    requires w in d.writers
  {
    forall u :: u in d.writers && u != w && d.writers[u].key == d.writers[w].key ==>
                  Hopeless(sha256, d.writers[u]) && !PreOpen(d.writers[u])
  }

  /** The file at the temporary path, if there is one, is this upload's own, and nobody else has it open. */
  ghost predicate TmpOwned(sha256: Bytes -> Oid, d: Disk, w: nat)
    requires w in d.writers
  {
    var s, tmp := d.writers[w], Temporary(d.writers[w].key);
    tmp in d.names && d.names[tmp] in d.inodes ==>
      && (s.Streaming? ==> d.names[tmp] == s.inode && d.inodes[s.inode] == s.hashed)
      && (s.Renaming? ==> sha256(d.inodes[d.names[tmp]]) == s.key)
      && (s.Opening? || s.Streaming? || s.Renaming? ==> OpenToNoOther(d, w, d.names[tmp]))
  }

  ghost predicate OpenToNoOther(d: Disk, w: nat, inode: nat)
    requires w in d.writers
  {
    forall u :: u in d.writers && u != w && d.writers[u].key == d.writers[w].key && d.writers[u].Streaming? ==>
                  d.writers[u].inode != inode
  }

  ghost predicate Placid(sha256: Bytes -> Oid, d: Disk, w: nat)
    requires w in d.writers
  {
    var s := d.writers[w];
    && (IsOid(s.oid) ==> s.oid == s.key)
    && (s.Streaming? && Final(s.key) in d.names ==> d.names[Final(s.key)] != s.inode)
    && (Hopeless(sha256, s) || (Unrivalled(sha256, d, w) && TmpOwned(sha256, d, w)))
  }

  /** The object is sound, and at most one upload of it can still succeed, undisturbed by the others. */
  ghost predicate Calm(sha256: Bytes -> Oid, d: Disk, key: Oid) {
    && (Content(d, Final(key)).Some? ==> sha256(Content(d, Final(key)).value) == key)
    && forall w :: w in d.writers && d.writers[w].key == key ==> Placid(sha256, d, w)
  }

  /** Every content has this id. */
  ghost predicate OnlyId(sha256: Bytes -> Oid, key: Oid) {
    forall data :: sha256(data) == key
  }

  ghost predicate Guarded(sha256: Bytes -> Oid, d: Disk) {
    Tidy(d) && forall key: Oid :: OnlyId(sha256, key) || Calm(sha256, d, key)
  }

  lemma GuardedIsSound(sha256: Bytes -> Oid, d: Disk)
    requires Guarded(sha256, d)
    ensures Sound(sha256, d)
  {
    forall p | p in d.names && p.Final? && d.names[p] in d.inodes ensures sha256(d.inodes[d.names[p]]) == p.key {
      if !OnlyId(sha256, p.key) {
        assert Calm(sha256, d, p.key);
        assert Content(d, Final(p.key)).Some?;
      }
    }
  }

  // ----- a step of another object's upload -----

  lemma CalmElsewhere(sha256: Bytes -> Oid, d: Disk, d': Disk, w: nat, key: Oid, other: Oid)
    requires Tidy(d) && Local(d, d', w, key) && other != key && Calm(sha256, d, other)
    ensures Calm(sha256, d', other)
  {
    OutOfReach(d, d', w, key, other);
    forall u | u in d'.writers && d'.writers[u].key == other ensures Placid(sha256, d', u) {
      assert Placid(sha256, d, u) && SameWriter(d, d', u);
      assert SameName(d, d', Final(other)) && SameName(d, d', Temporary(other));
      if !Hopeless(sha256, d.writers[u]) {
        UnrivalledElsewhere(sha256, d, d', u, other);
      }
    }
  }

  lemma UnrivalledElsewhere(sha256: Bytes -> Oid, d: Disk, d': Disk, u: nat, key: Oid)
    requires Tidy(d) && u in d.writers && u in d'.writers && d.writers[u] == d'.writers[u] && d.writers[u].key == key
    requires forall v :: (v in d'.writers && d'.writers[v].key == key) <==> (v in d.writers && d.writers[v].key == key)
    requires forall v :: v in d.writers && d.writers[v].key == key ==> SameWriter(d, d', v)
    requires SameName(d, d', Temporary(key)) && Content(d', Temporary(key)) == Content(d, Temporary(key))
    requires Unrivalled(sha256, d, u) && TmpOwned(sha256, d, u)
    ensures Unrivalled(sha256, d', u) && TmpOwned(sha256, d', u)
  {
    assert forall v :: v in d'.writers && d'.writers[v].key == key ==> SameWriter(d, d', v);
  }

  // ----- a step of the object's own uploads -----

  /** Uploads end, and the temporary file may go. */
  lemma CalmWithFewer(sha256: Bytes -> Oid, d: Disk, key: Oid, w: nat, names: map<Path, nat>)
    requires Calm(sha256, d, key) && (names == d.names || names == d.names - {Temporary(key)})
    ensures Calm(sha256, d.(names := names, writers := d.writers - {w}), key)
  {
    var d' := d.(names := names, writers := d.writers - {w});
    forall u | u in d'.writers && d'.writers[u].key == key ensures Placid(sha256, d', u) {
      assert Placid(sha256, d, u);
    }
  }

  /** An upload that has yet to open its file leaves the others none that can succeed. */
  lemma OthersHopeless(sha256: Bytes -> Oid, d: Disk, key: Oid, w: nat, u: nat)
    requires Calm(sha256, d, key) && w in d.writers && d.writers[w].key == key && PreOpen(d.writers[w])
    requires u in d.writers && u != w && d.writers[u].key == key
    ensures Hopeless(sha256, d.writers[u])
  {
    assert Placid(sha256, d, u);
  }

  lemma CalmRestaged(sha256: Bytes -> Oid, d: Disk, key: Oid, w: nat, s': Writer, names: map<Path, nat>)
    requires Calm(sha256, d, key) && w in d.writers && d.writers[w].key == key && PreOpen(d.writers[w])
    requires s'.key == key && s'.oid == d.writers[w].oid
    requires s'.Abandoned? || ((s'.Scrubbing? || s'.Opening?) && s'.expected == d.writers[w].expected)
    requires names == d.names || names == d.names - {Temporary(key)}
    requires s'.Opening? ==> Temporary(key) !in names
    ensures Calm(sha256, d.(names := names, writers := d.writers[w := s']), key)
  {
    var d' := d.(names := names, writers := d.writers[w := s']);
    forall u | u in d'.writers && d'.writers[u].key == key ensures Placid(sha256, d', u) {
      assert Placid(sha256, d, u);
      if u != w {
        OthersHopeless(sha256, d, key, w, u);
      } else if !s'.Abandoned? {
        HopelessBeforeOpening(sha256, d.writers[w], s');
      }
    }
  }

  lemma PlacidOpened(sha256: Bytes -> Oid, d: Disk, key: Oid, w: nat, s: Writer, u: nat)
    requires Tidy(d) && Calm(sha256, d, key) && w in d.writers && d.writers[w] == s && s.key == key
    requires s.Opening? || (s.Starting? && Temporary(key) !in d.names)
    requires u in d.writers && d.writers[u].key == key
    ensures Placid(sha256, OpenForWriting(d, w, s), u)
  {
    assert Placid(sha256, d, u);
    if u != w {
      OthersHopeless(sha256, d, key, w, u);
    } else {
      HopelessOpens(sha256, s, OpenForWriting(d, w, s).writers[w].inode);
    }
  }

  lemma CalmOpened(sha256: Bytes -> Oid, d: Disk, key: Oid, w: nat, s: Writer)
    requires Tidy(d) && Calm(sha256, d, key) && w in d.writers && d.writers[w] == s && s.key == key
    requires s.Opening? || (s.Starting? && Temporary(key) !in d.names)
    ensures Calm(sha256, OpenForWriting(d, w, s), key)
  {
    var d' := OpenForWriting(d, w, s);
    assert Content(d', Final(key)) == Content(d, Final(key));
    forall u | u in d'.writers && d'.writers[u].key == key ensures Placid(sha256, d', u) {
      PlacidOpened(sha256, d, key, w, s, u);
    }
  }

  /** The upload that writes stays as it was, and so do the others. */
  lemma PlacidWritten(sha256: Bytes -> Oid, d: Disk, key: Oid, w: nat, s: Writer, data: Bytes, u: nat)
    requires Tidy(d) && Calm(sha256, d, key) && w in d.writers && d.writers[w] == s && s.key == key && s.Streaming?
    requires Hopeless(sha256, s) ==> Hopeless(sha256, s.(hashed := s.hashed + data))
    requires u in d.writers && d.writers[u].key == key
    ensures Placid(sha256, Written(d, w, s, data), u)
  {
    assert Placid(sha256, d, u) && Placid(sha256, d, w);
  }

  lemma CalmWritten(sha256: Bytes -> Oid, d: Disk, key: Oid, w: nat, s: Writer, data: Bytes)
    requires Tidy(d) && Calm(sha256, d, key) && w in d.writers && d.writers[w] == s && s.key == key && s.Streaming?
    ensures Calm(sha256, Written(d, w, s, data), key)
  {
    var d' := Written(d, w, s, data);
    assert Content(d', Final(key)) == Content(d, Final(key)) by {
      assert Placid(sha256, d, w);
    }
    if Hopeless(sha256, s) {
      HopelessStays(sha256, s, data);
    }
    forall u | u in d'.writers && d'.writers[u].key == key ensures Placid(sha256, d', u) {
      PlacidWritten(sha256, d, key, w, s, data, u);
    }
  }

  lemma CalmChecked(sha256: Bytes -> Oid, d: Disk, key: Oid, w: nat, s: Writer)
    requires Calm(sha256, d, key) && w in d.writers && d.writers[w] == s && s.key == key
    requires s.Streaming? && |s.hashed| == s.expected && sha256(s.hashed) == s.oid
    ensures Calm(sha256, d.(writers := d.writers[w := Renaming(s.oid, s.key)]), key)
  {
    var d' := d.(writers := d.writers[w := Renaming(s.oid, s.key)]);
    assert s.hashed + [] == s.hashed;
    assert CanSucceed(sha256, s, []);
    forall u | u in d'.writers && d'.writers[u].key == key ensures Placid(sha256, d', u) {
      assert Placid(sha256, d, u);
    }
  }

  lemma CalmRenamed(sha256: Bytes -> Oid, d: Disk, key: Oid, w: nat, s: Writer)
    requires Tidy(d) && Calm(sha256, d, key) && w in d.writers && d.writers[w] == s && s.key == key && s.Renaming?
    requires Temporary(key) in d.names
    ensures Calm(sha256, d.(names := d.names[Final(key) := d.names[Temporary(key)]] - {Temporary(key)},
                            writers := d.writers - {w}), key)
  {
    var d' := d.(names := d.names[Final(key) := d.names[Temporary(key)]] - {Temporary(key)},
                 writers := d.writers - {w});
    assert Placid(sha256, d, w) && CanSucceed(sha256, s, []);
    forall u | u in d'.writers && d'.writers[u].key == key ensures Placid(sha256, d', u) {
      assert Placid(sha256, d, u);
    }
  }

  lemma CalmCancelled(sha256: Bytes -> Oid, d: Disk, key: Oid, w: nat)
    requires Calm(sha256, d, key) && Step(sha256, d, Cancel(w)).Some? && d.writers[w].key == key
    ensures Calm(sha256, Step(sha256, d, Cancel(w)).value, key)
  {
    var s := d.writers[w];
    if s.Scrubbing? {
      CalmRestaged(sha256, d, key, w, Abandoned(s.oid, s.key), d.names);
    } else if !s.Renaming? && !s.Abandoned? {
      CalmWithFewer(sha256, d, key, w, d.names);
    }
  }

  lemma CalmUnlinked(sha256: Bytes -> Oid, d: Disk, key: Oid, w: nat)
    requires Calm(sha256, d, key) && Step(sha256, d, Unlinked(w)).Some? && d.writers[w].key == key
    ensures Calm(sha256, Step(sha256, d, Unlinked(w)).value, key)
  {
    var s := d.writers[w];
    if s.Abandoned? {
      CalmWithFewer(sha256, d, key, w, d.names - {Temporary(key)});
    } else {
      CalmRestaged(sha256, d, key, w, Opening(s.oid, s.key, s.expected), d.names - {Temporary(key)});
    }
  }

  lemma CalmBodyEnds(sha256: Bytes -> Oid, d: Disk, key: Oid, w: nat)
    requires Calm(sha256, d, key) && Step(sha256, d, BodyEnds(w)).Some? && d.writers[w].key == key
    ensures Calm(sha256, Step(sha256, d, BodyEnds(w)).value, key)
  {
    var s := d.writers[w];
    if |s.hashed| == s.expected && sha256(s.hashed) == s.oid {
      CalmChecked(sha256, d, key, w, s);
    } else {
      CalmWithFewer(sha256, d, key, w, d.names - {Temporary(key)});
    }
  }

  lemma CalmMadeParent(sha256: Bytes -> Oid, d: Disk, key: Oid, w: nat)
    requires Tidy(d) && Calm(sha256, d, key) && Step(sha256, d, MadeParent(w)).Some? && d.writers[w].key == key
    ensures Calm(sha256, Step(sha256, d, MadeParent(w)).value, key)
  {
    var s := d.writers[w];
    if Temporary(key) in d.names {
      CalmRestaged(sha256, d, key, w, Scrubbing(s.oid, s.key, s.expected), d.names);
    } else {
      CalmOpened(sha256, d, key, w, s);
    }
  }

  lemma CalmBegun(sha256: Bytes -> Oid, d: Disk, key: Oid, e: Event)
    requires Calm(sha256, d, key) && e.Begin? && Step(sha256, d, e).Some? && Lower(e.oid) == key && !InFlight(d, key)
    ensures Calm(sha256, Step(sha256, d, e).value, key)
  {
    if IsOid(e.oid) {
      LowerOfOid(e.oid);
    }
  }

  lemma OwnStepCalm(sha256: Bytes -> Oid, d: Disk, e: Event, key: Oid)
    requires Tidy(d) && Calm(sha256, d, key) && !e.Crash? && Step(sha256, d, e).Some? && Disciplined(d, e)
    requires Subject(d, e) == key
    ensures Calm(sha256, Step(sha256, d, e).value, key)
  {
    match e
    case Begin(_, _, _) => CalmBegun(sha256, d, key, e);
    case MadeParent(w) => CalmMadeParent(sha256, d, key, w);
    case Unlinked(w) => CalmUnlinked(sha256, d, key, w);
    case Open(w) => CalmOpened(sha256, d, key, w, d.writers[w]);
    case Chunk(w, data) => CalmWritten(sha256, d, key, w, d.writers[w], data);
    case BodyRaises(w) => CalmWithFewer(sha256, d, key, w, d.names - {Temporary(key)});
    case BodyEnds(w) => CalmBodyEnds(sha256, d, key, w);
    case Rename(w) =>
      if Temporary(key) in d.names {
        CalmRenamed(sha256, d, key, w, d.writers[w]);
      } else {
        CalmWithFewer(sha256, d, key, w, d.names);
      }
    case Cancel(w) => CalmCancelled(sha256, d, key, w);
  }

  // ----- whole runs -----

  lemma CrashGuarded(sha256: Bytes -> Oid, d: Disk)
    requires Guarded(sha256, d)
    ensures Guarded(sha256, d.(writers := map[]))
  {
    var d' := d.(writers := map[]);
    forall key: Oid | !OnlyId(sha256, key) ensures Calm(sha256, d', key) {
      assert Calm(sha256, d, key);
    }
  }

  lemma StepGuarded(sha256: Bytes -> Oid, d: Disk, e: Event)
    requires Guarded(sha256, d) && Disciplined(d, e) && Step(sha256, d, e).Some?
    ensures Guarded(sha256, Step(sha256, d, e).value)
  {
    if e.Crash? {
      CrashGuarded(sha256, d);
    } else {
      var d' := Step(sha256, d, e).value;
      StepIsLocal(sha256, d, e);
      forall key: Oid | !OnlyId(sha256, key) ensures Calm(sha256, d', key) {
        assert Calm(sha256, d, key);
        if Subject(d, e) == key {
          OwnStepCalm(sha256, d, e, key);
        } else {
          CalmElsewhere(sha256, d, d', e.w, Subject(d, e), key);
        }
      }
    }
  }

  lemma {:induction false} GuardedRunsStaySound(sha256: Bytes -> Oid, d: Disk, events: seq<Event>)
    requires Guarded(sha256, d) && DisciplinedRun(sha256, d, events) && Run(sha256, d, events).Some?
    ensures Guarded(sha256, Run(sha256, d, events).value) && Sound(sha256, Run(sha256, d, events).value)
  {
    if events != [] {
      var init := events[..|events| - 1];
      GuardedRunsStaySound(sha256, d, init);
      StepGuarded(sha256, Run(sha256, d, init).value, events[|events| - 1]);
    }
    GuardedIsSound(sha256, Run(sha256, d, events).value);
  }

  // ----- the exact condition -----

  ghost predicate AdmissionIsSafe(sha256: Bytes -> Oid, d: Disk, e: Event) {
    var d0 := Step(sha256, d, e);
    d0.Some? ==> forall events :: DisciplinedRun(sha256, d0.value, events) && Run(sha256, d0.value, events).Some? ==>
                                    Sound(sha256, Run(sha256, d0.value, events).value)
  }

  /** The upload that an admission adds. */
  function Newcomer(e: Event): Writer
    requires e.Begin? && ValidOid(e.oid)
  {
    LowerValid(e.oid);
    Starting(e.oid, Lower(e.oid), e.expected)
  }

  /** The newcomer does this upload no harm and takes none: neither can be made to store the other's file. */
  ghost predicate Harmless(sha256: Bytes -> Oid, s: Writer, newcomer: Writer) {
    Hopeless(sha256, s) && (PreOpen(s) ==> Hopeless(sha256, newcomer))
  }

  /**
   Letting an upload in is safe if and only if every upload of the same object in flight is bound to fail, and, where
   one of these has yet to open its file, the new one is bound to fail as well. So it is safe when none is in flight.
   (Under an id that every content has, nothing can go wrong.)
   */
  lemma AdmissionIsSafeIff(sha256: Bytes -> Oid, d: Disk, e: Event)
    requires Inv(sha256, d) && e.Begin? && Step(sha256, d, e).Some?
    ensures AdmissionIsSafe(sha256, d, e) <==>
              || OnlyId(sha256, Newcomer(e).key)
              || forall w :: w in d.writers && d.writers[w].key == Newcomer(e).key ==>
                               Harmless(sha256, d.writers[w], Newcomer(e))
  {
    var key, d0 := Newcomer(e).key, Step(sha256, d, e).value;
    if OnlyId(sha256, key) || forall w :: w in d.writers && d.writers[w].key == key ==>
                                            Harmless(sha256, d.writers[w], Newcomer(e)) {
      AdmittedIsGuarded(sha256, d, e);
      forall events | DisciplinedRun(sha256, d0, events) && Run(sha256, d0, events).Some?
        ensures Sound(sha256, Run(sha256, d0, events).value)
      {
        GuardedRunsStaySound(sha256, d0, events);
      }
    } else {
      var w :| w in d.writers && d.writers[w].key == key && !Harmless(sha256, d.writers[w], Newcomer(e));
      var data :| sha256(data) != key;
      var events, d' := HarmDone(sha256, d, e, w, data);
      LeadsDisciplined(sha256, d0, events);
    }
  }

  lemma HarmDone(sha256: Bytes -> Oid, d: Disk, e: Event, w: nat, data: Bytes) returns (events: seq<Event>, d': Disk)
    requires Inv(sha256, d) && e.Begin? && Step(sha256, d, e).Some? && sha256(data) != Newcomer(e).key
    requires w in d.writers && d.writers[w].key == Newcomer(e).key && !Harmless(sha256, d.writers[w], Newcomer(e))
    ensures Leads(sha256, Step(sha256, d, e).value, events, d') && !Sound(sha256, d')
  {
    var d0 := Step(sha256, d, e).value;
    assert WriterOk(sha256, d, d.writers[w]);
    if !Hopeless(sha256, d.writers[w]) {
      var rest :| CanSucceed(sha256, d.writers[w], rest);
      events, d' := OverlapBreaksStore(sha256, d0, w, e.w, rest, data);
    } else {
      var body :| CanSucceed(sha256, Newcomer(e), body);
      events, d' := OverlapBreaksStore(sha256, d0, e.w, w, body, data);
    }
  }

  lemma InvIsCalm(sha256: Bytes -> Oid, d: Disk, key: Oid)
    requires Inv(sha256, d)
    ensures Calm(sha256, d, key)
  {
    forall w | w in d.writers && d.writers[w].key == key ensures Placid(sha256, d, w) {
      assert WriterOk(sha256, d, d.writers[w]);
    }
  }

  lemma AdmittedIsGuarded(sha256: Bytes -> Oid, d: Disk, e: Event)
    requires Inv(sha256, d) && e.Begin? && Step(sha256, d, e).Some?
    requires || OnlyId(sha256, Newcomer(e).key)
             || forall w :: w in d.writers && d.writers[w].key == Newcomer(e).key ==>
                              Harmless(sha256, d.writers[w], Newcomer(e))
    ensures Guarded(sha256, Step(sha256, d, e).value)
  {
    var d0 := Step(sha256, d, e).value;
    InvIsTidy(sha256, d);
    StepIsLocal(sha256, d, e);
    forall key: Oid | !OnlyId(sha256, key) ensures Calm(sha256, d0, key) {
      InvIsCalm(sha256, d, key);
      if key == Newcomer(e).key {
        AdmittedIsCalm(sha256, d, e);
      } else {
        CalmElsewhere(sha256, d, d0, e.w, Subject(d, e), key);
      }
    }
  }

  lemma AdmittedIsCalm(sha256: Bytes -> Oid, d: Disk, e: Event)
    requires Inv(sha256, d) && e.Begin? && Step(sha256, d, e).Some?
    requires forall w :: w in d.writers && d.writers[w].key == Newcomer(e).key ==>
                           Harmless(sha256, d.writers[w], Newcomer(e))
    ensures Calm(sha256, Step(sha256, d, e).value, Newcomer(e).key)
  {
    var key, d0 := Newcomer(e).key, Step(sha256, d, e).value;
    if IsOid(e.oid) {
      LowerOfOid(e.oid);
    }
    forall w | w in d0.writers && d0.writers[w].key == key ensures Placid(sha256, d0, w) {
      if w != e.w {
        assert WriterOk(sha256, d, d.writers[w]) && Harmless(sha256, d.writers[w], Newcomer(e));
      }
    }
  }
}
