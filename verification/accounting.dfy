/** Storage accounting across repository creation, pushes, deletion and LFS uploads. */
module Accounting {
  import opened Prelude
  import opened Quota
  import opened Sums
  import LfsServer
  import ObjectStore

  datatype RepoKey = RepoKey(owner: UserId, kind: string, name: string)

  /**
   The database rows and stored objects that accounting is about. What each user has been charged for LFS uploads is
   history: the server keeps no such row.
   */
  datatype Ledger = Ledger(used: map<UserId, int>, sizes: map<RepoKey, nat>, objects: map<string, nat>,
                           charged: map<UserId, nat>)

  function UsedBy(l: Ledger, user: UserId): int {
    if user in l.used then l.used[user] else 0
  }

  function ChargedTo(l: Ledger, user: UserId): nat {
    if user in l.charged then l.charged[user] else 0
  }

  function OwnedSizes(sizes: map<RepoKey, nat>, user: UserId): map<RepoKey, nat> {
    map k | k in sizes && k.owner == user :: sizes[k]
  }

  // ----- the events -----

  datatype Event =
    | Create(key: RepoKey)
    | Push(key: RepoKey, newSize: nat)  // a push that moved some branch; newSize is the measured disk usage
    | Delete(key: RepoKey)
    | Put(owner: UserId, path: string, size: nat)  // an accepted upload

  predicate Possible(l: Ledger, e: Event) {
    match e
    case Create(key) => key !in l.sizes
    case Push(key, _) => key in l.sizes
    case Delete(key) => key in l.sizes
    case Put(_, path, _) => path !in l.objects
  }

  /** The bookkeeping's usage update, with its floor at zero. */
  function Bump(l: Ledger, user: UserId, delta: int): map<UserId, int> {
    var value := UsedBy(l, user) + delta;
    l.used[user := if value < 0 then 0 else value]
  }

  function Step(l: Ledger, e: Event): Ledger
    requires Possible(l, e)
  {
    match e
    case Create(key) => l.(sizes := l.sizes[key := 0])
    case Push(key, newSize) =>
      l.(used := Bump(l, key.owner, newSize - l.sizes[key]), sizes := l.sizes[key := newSize])
    case Delete(key) => l.(used := Bump(l, key.owner, -(l.sizes[key] as int)), sizes := l.sizes - {key})
    case Put(owner, path, size) =>
      l.(used := Bump(l, owner, size), objects := l.objects[path := size],
         charged := l.charged[owner := ChargedTo(l, owner) + size])
  }

  function Run(l: Ledger, events: seq<Event>): Option<Ledger> {
    if events == [] then Some(l)
    else
      match Run(l, events[..|events| - 1])
      case None => None
      case Some(before) =>
        if Possible(before, events[|events| - 1]) then Some(Step(before, events[|events| - 1])) else None
  }

  // ----- conservation -----

  ghost predicate Conserved(l: Ledger) {
    && (forall u :: UsedBy(l, u) == Total(OwnedSizes(l.sizes, u)) + ChargedTo(l, u))
    && Total(l.charged) == Total(l.objects)
  }

  /** An empty server is in balance. */
  lemma EmptyConserved()
    ensures Conserved(Ledger(map[], map[], map[], map[]))
  {
    forall u ensures OwnedSizes(map[], u) == map[] {}
  }

  lemma OwnedAfterChange(sizes: map<RepoKey, nat>, key: RepoKey, size: nat, user: UserId)
    ensures OwnedSizes(sizes[key := size], user)
            == if key.owner == user then OwnedSizes(sizes, user)[key := size] else OwnedSizes(sizes, user)
    ensures OwnedSizes(sizes - {key}, user)
            == if key.owner == user then OwnedSizes(sizes, user) - {key} else OwnedSizes(sizes, user)
  {
  }

  /** The change an event makes to the recorded sizes and charges of one user. */
  function Growth(l: Ledger, e: Event, user: UserId): int
    requires Possible(l, e)
  {
    match e
    case Create(_) => 0
    case Push(key, newSize) => if key.owner == user then newSize - l.sizes[key] else 0
    case Delete(key) => if key.owner == user then -(l.sizes[key] as int) else 0
    case Put(owner, _, size) => if owner == user then size else 0
  }

  lemma SizesGrow(l: Ledger, e: Event, user: UserId)
    requires Possible(l, e)
    ensures var l' := Step(l, e);
            Total(OwnedSizes(l'.sizes, user)) + ChargedTo(l', user)
            == Total(OwnedSizes(l.sizes, user)) + ChargedTo(l, user) + Growth(l, e, user)
  {
    match e
    case Create(key) =>
      OwnedAfterChange(l.sizes, key, 0, user);
      TotalInsert(OwnedSizes(l.sizes, user), key, 0);
    case Push(key, newSize) =>
      OwnedAfterChange(l.sizes, key, newSize, user);
      if key.owner == user {
        TotalUpdate(OwnedSizes(l.sizes, user), key, newSize);
      }
    case Delete(key) =>
      OwnedAfterChange(l.sizes, key, 0, user);
      if key.owner == user {
        TotalRemove(OwnedSizes(l.sizes, user), key);
      }
    case Put(_, _, _) =>
  }

  /** The floor at zero never applies: releasing a repository's bytes never asks for more than the user has. */
  lemma ClampNeverFires(l: Ledger, e: Event, user: UserId)
    requires Conserved(l) && Possible(l, e)
    ensures UsedBy(l, user) + Growth(l, e, user) >= 0
    ensures UsedBy(Step(l, e), user) == UsedBy(l, user) + Growth(l, e, user)
  {
    SizesGrow(l, e, user);
  }

  lemma StepConserves(l: Ledger, e: Event)
    requires Conserved(l) && Possible(l, e)
    ensures Conserved(Step(l, e))
  {
    var l' := Step(l, e);
    forall u ensures UsedBy(l', u) == Total(OwnedSizes(l'.sizes, u)) + ChargedTo(l', u) {
      SizesGrow(l, e, u);
      ClampNeverFires(l, e, u);
    }
    if e.Put? {
      TotalInsert(l.objects, e.path, e.size);
      ChargeAdds(l.charged, e.owner, e.size);
    }
  }

  lemma ChargeAdds(charged: map<UserId, nat>, owner: UserId, size: nat)
    ensures var charge := if owner in charged then charged[owner] else 0;
            Total(charged[owner := charge + size]) == Total(charged) + size
  {
    if owner in charged {
      TotalUpdate(charged, owner, charged[owner] + size);
    } else {
      TotalInsert(charged, owner, size);
    }
  }

  /**
   Over any run, each user's usage is the recorded size of their repositories plus what they were charged for uploads,
   and the charges of all users add up to the bytes in the store: every object is charged exactly once.
   */
  lemma {:induction false} RunConserves(l: Ledger, events: seq<Event>)
    requires Conserved(l) && Run(l, events).Some?
    ensures Conserved(Run(l, events).value)
  {
    if events != [] {
      RunConserves(l, events[..|events| - 1]);
      StepConserves(Run(l, events[..|events| - 1]).value, events[|events| - 1]);
    }
  }

  // ----- quota safety -----

  predicate WithinCap(l: Ledger, caps: map<UserId, int>, defaultCap: int) {
    forall u :: u in l.used ==> l.used[u] <= (if u in caps then caps[u] else defaultCap)
  }

  /** An upload is admitted only when it fits the owner's cap. */
  predicate Admitted(l: Ledger, e: Event, caps: map<UserId, int>, defaultCap: int) {
    && e.Put? && Possible(l, e)
    && Fits(UsedBy(l, e.owner), if e.owner in caps then caps[e.owner] else defaultCap, e.size)
  }

  ghost predicate AllAdmitted(l: Ledger, events: seq<Event>, caps: map<UserId, int>, defaultCap: int) {
    if events == [] then true
    else
      var init := events[..|events| - 1];
      && AllAdmitted(l, init, caps, defaultCap)
      && (Run(l, init).Some? ==> Admitted(Run(l, init).value, events[|events| - 1], caps, defaultCap))
  }

  /**
   With unchanged, non-negative caps, no run of LFS uploads takes a user over the cap: what is checked, what the store
   insists on and what is charged are the same number.
   */
  lemma {:induction false} UploadsStayWithinCap(
      l: Ledger, events: seq<Event>, caps: map<UserId, int>, defaultCap: nat)
    requires Conserved(l) && WithinCap(l, caps, defaultCap) && AllAdmitted(l, events, caps, defaultCap)
    requires forall u :: u in caps ==> caps[u] >= 0
    requires Run(l, events).Some?
    ensures WithinCap(Run(l, events).value, caps, defaultCap)
  {
    if events != [] {
      var init := events[..|events| - 1];
      UploadsStayWithinCap(l, init, caps, defaultCap);
      RunConserves(l, init);
      ClampNeverFires(Run(l, init).value, events[|events| - 1], events[|events| - 1].owner);
    }
  }

  // ----- the server's methods -----

  ghost predicate IsObjectPath(p: string) {
    exists oid: Oid :: p == ObjectStore.ObjectPath(oid)
  }

  ghost function StoredSizes(files: map<string, Bytes>): map<string, nat> {
    map p | p in files && IsObjectPath(p) :: |files[p]|
  }

  /** Temporary files do not count, and a stored object counts once, with its full size. */
  lemma StoredSizesAfterPut(files: map<string, Bytes>, oid: string, content: Bytes)
    requires ObjectStore.ValidOid(oid)
    ensures StoredSizes(files - {ObjectStore.TmpPath(oid)}) == StoredSizes(files)
    ensures IsOid(oid) ==>
              StoredSizes(files[ObjectStore.ObjectPath(oid) := content] - {ObjectStore.TmpPath(oid)})
              == StoredSizes(files)[ObjectStore.ObjectPath(oid) := |content|]
  {
    NoObjectIsTemporary(oid);
    assert IsOid(oid) ==> IsObjectPath(ObjectStore.ObjectPath(oid));
  }

  lemma NoObjectIsTemporary(oid: string)
    requires ObjectStore.ValidOid(oid)
    ensures !IsObjectPath(ObjectStore.TmpPath(oid))
  {
    forall other: Oid ensures ObjectStore.ObjectPath(other) != ObjectStore.TmpPath(oid) {
      ObjectStore.LowerValid(other);
      ObjectStore.PathsCollide(other, oid);
    }
  }

  /** Two ledgers say the same: a usage row of zero is as good as none. */
  ghost predicate Same(a: Ledger, b: Ledger) {
    && a.sizes == b.sizes && a.objects == b.objects && a.charged == b.charged
    && forall u :: UsedBy(a, u) == UsedBy(b, u)
  }

  lemma SameConserved(a: Ledger, b: Ledger)
    requires Same(a, b) && Conserved(a)
    ensures Conserved(b)
  {
  }

  /** One user's usage moved by the delta, floored at zero; nobody else's did. */
  ghost predicate BumpedRow(before: Ledger, after: Ledger, user: UserId, delta: int) {
    && UsedBy(after, user) == (if UsedBy(before, user) + delta < 0 then 0 else UsedBy(before, user) + delta)
    && forall u :: u != user ==> UsedBy(after, u) == UsedBy(before, u)
  }

  datatype Outcome = Done | InvalidName | Conflict | NotFound

  class Platform {
    const service: LfsServer.LfsService
    var sizes: map<RepoKey, nat>
    ghost var charged: map<UserId, nat>

    /** A new server, over an empty store and an empty usage table, is in balance. */
    constructor (service: LfsServer.LfsService)
      requires service.store.files == map[] && service.quota.usedBytes == map[]
      ensures this.service == service && sizes == map[]
      ensures Conserved(Books())
    {
      this.service, sizes, charged := service, map[], map[];
      new;
      EmptyConserved();
      assert Books() == Ledger(map[], map[], map[], map[]);
    }

    ghost function Books(): Ledger
      reads this, service.quota, service.store
    {
      Ledger(service.quota.usedBytes, sizes, StoredSizes(service.store.files), charged)
    }

    method CreateRepo(key: RepoKey, validName: bool) returns (r: Outcome)
      requires Conserved(Books())
      modifies this, service.quota
      ensures r == (if !validName then InvalidName else if key in old(sizes) then Conflict else Done)
      ensures Same(Books(), if r == Done then Step(old(Books()), Create(key)) else old(Books()))
      ensures Conserved(Books())
    {
      if !validName {
        return InvalidName;
      }
      if key in sizes {
        return Conflict;
      }
      ghost var before := Books();
      sizes := sizes[key := 0];
      MakeRows(key.owner);
      BooksAfter(before, Books(), Create(key));
      return Done;
    }

    method MakeRows(user: UserId)
      modifies service.quota
      ensures Books().sizes == sizes && Books().objects == old(Books()).objects && Books().charged == charged
      ensures forall u :: UsedBy(Books(), u) == UsedBy(old(Books()), u)
    {
      service.quota.EnsureQuotaRows(user);
      assert forall u :: UsedBy(Books(), u) == service.quota.Used(u);
      assert forall u :: UsedBy(old(Books()), u) == old(service.quota.Used(u));
    }

    /** Moves one user's usage row; the other books stay. */
    method Charge(user: UserId, delta: int)
      modifies service.quota
      ensures Books().sizes == sizes && Books().objects == old(Books()).objects && Books().charged == charged
      ensures BumpedRow(old(Books()), Books(), user, delta)
    {
      service.quota.AddUsage(user, delta);
      assert forall u :: UsedBy(Books(), u) == service.quota.Used(u);
      assert forall u :: UsedBy(old(Books()), u) == old(service.quota.Used(u));
    }

    /** Bookkeeping after a push: nothing to record unless some branch moved. */
    method RecordPush(key: RepoKey, branchesMoved: bool, diskUsage: nat) returns (r: Outcome)
      requires Conserved(Books())
      modifies this, service.quota
      ensures r == (if branchesMoved && key !in old(sizes) then NotFound else Done)
      ensures Same(Books(),
                   if branchesMoved && r == Done then Step(old(Books()), Push(key, diskUsage)) else old(Books()))
      ensures Conserved(Books())
    {
      if !branchesMoved {
        return Done;
      }
      if key !in sizes {
        return NotFound;
      }
      ghost var before := Books();
      var sizeDelta := diskUsage - sizes[key];
      sizes := sizes[key := diskUsage];
      Charge(key.owner, sizeDelta);
      BooksAfterUsage(before, Books(), Push(key, diskUsage), key.owner, sizeDelta);
      return Done;
    }

    method DeleteRepo(key: RepoKey) returns (r: Outcome)
      requires Conserved(Books())
      modifies this, service.quota
      ensures r == (if key in old(sizes) then Done else NotFound)
      ensures Same(Books(), if r == Done then Step(old(Books()), Delete(key)) else old(Books()))
      ensures Conserved(Books())
    {
      if key !in sizes {
        return NotFound;
      }
      ghost var before := Books();
      var sizeToRelease := sizes[key];
      sizes := sizes - {key};
      Charge(key.owner, -(sizeToRelease as int));
      BooksAfterUsage(before, Books(), Delete(key), key.owner, -(sizeToRelease as int));
      return Done;
    }

    /** An LFS upload: on success the stored object and the charge are the same event. */
    method PutObject(oid: string, owner: UserId, refusal: Option<nat>, length: Option<int>,
                     events: seq<LfsServer.BodyEvent>)
      returns (status: nat)
      requires Conserved(Books())
      requires refusal.Some? ==> refusal.value >= 400
      modifies this, service.store`files, service.quota
      ensures var content := Concat(LfsServer.Received(events, service.maxObjectBytes, 0).chunks);
              if status == LfsServer.OK then
                && ObjectStore.ValidOid(oid)
                && var e := Put(owner, ObjectStore.ObjectPath(oid), |content|);
                   && Possible(old(Books()), e)
                   && Fits(UsedBy(old(Books()), owner), old(service.quota.Cap(owner)), |content|)
                   && Same(Books(), Step(old(Books()), e))
              else Same(Books(), old(Books()))
      ensures Conserved(Books())
    {
      ghost var before, files := Books(), service.store.files;
      ghost var content := Concat(LfsServer.Received(events, service.maxObjectBytes, 0).chunks);
      assert forall u :: UsedBy(before, u) == service.quota.Used(u);
      status := service.HandlePut(oid, owner, refusal, length, events);
      assert forall u :: UsedBy(Books(), u) == service.quota.Used(u);
      if status == LfsServer.OK {
        charged := charged[owner := ChargedTo(before, owner) + |content|];
        assert forall u :: UsedBy(Books(), u) == service.quota.Used(u);
        BooksAfterPut(before, Books(), files, service.store.files, oid, owner, content);
      } else {
        BooksAfterRefusal(before, Books(), files, service.store.files, oid);
      }
    }
  }

  lemma BooksAfter(before: Ledger, after: Ledger, e: Event)
    requires Conserved(before) && Possible(before, e)
    requires after.sizes == Step(before, e).sizes && after.objects == Step(before, e).objects
    requires after.charged == Step(before, e).charged
    requires forall u :: UsedBy(after, u) == UsedBy(Step(before, e), u)
    ensures Same(after, Step(before, e)) && Conserved(after)
  {
    StepConserves(before, e);
    SameConserved(Step(before, e), after);
  }

  /** The usage row is bumped as the event says. */
  lemma BooksAfterUsage(before: Ledger, after: Ledger, e: Event, user: UserId, delta: int)
    requires Conserved(before) && Possible(before, e)
    requires after.sizes == Step(before, e).sizes && after.objects == Step(before, e).objects
    requires after.charged == Step(before, e).charged && Step(before, e).used == Bump(before, user, delta)
    requires BumpedRow(before, after, user, delta)
    ensures Same(after, Step(before, e)) && Conserved(after)
  {
    BooksAfter(before, after, e);
  }

  lemma BooksAfterPut(before: Ledger, after: Ledger, files: map<string, Bytes>, files': map<string, Bytes>,
                      oid: Oid, owner: UserId, content: Bytes)
    requires Conserved(before) && ObjectStore.ObjectPath(oid) !in files
    requires before.objects == StoredSizes(files) && after.objects == StoredSizes(files')
    requires files' == files[ObjectStore.ObjectPath(oid) := content] - {ObjectStore.TmpPath(oid)}
    requires after.sizes == before.sizes
    requires after.charged == before.charged[owner := ChargedTo(before, owner) + |content|]
    requires forall u :: UsedBy(after, u) == UsedBy(before, u) + if u == owner then |content| else 0
    ensures var e := Put(owner, ObjectStore.ObjectPath(oid), |content|);
            Possible(before, e) && Same(after, Step(before, e))
    ensures Conserved(after)
  {
    ObjectStore.LowerValid(oid);
    StoredSizesAfterPut(files, oid, content);
    var e := Put(owner, ObjectStore.ObjectPath(oid), |content|);
    assert Possible(before, e) && after.objects == Step(before, e).objects;
    PutCharges(before, after, e);
    BooksAfter(before, after, e);
  }

  lemma PutCharges(before: Ledger, after: Ledger, e: Event)
    requires Conserved(before) && Possible(before, e) && e.Put?
    requires forall u :: UsedBy(after, u) == UsedBy(before, u) + if u == e.owner then e.size else 0
    ensures forall u :: UsedBy(after, u) == UsedBy(Step(before, e), u)
  {
    ClampNeverFires(before, e, e.owner);
  }

  lemma BooksAfterRefusal(before: Ledger, after: Ledger, files: map<string, Bytes>, files': map<string, Bytes>,
                          oid: string)
    requires Conserved(before)
    requires before.objects == StoredSizes(files) && after.objects == StoredSizes(files')
    requires files' == files || (ObjectStore.ValidOid(oid) && files' == files - {ObjectStore.TmpPath(oid)})
    requires after.sizes == before.sizes && after.charged == before.charged
    requires forall u :: UsedBy(after, u) == UsedBy(before, u)
    ensures Same(after, before) && Conserved(after)
  {
    if ObjectStore.ValidOid(oid) {
      StoredSizesAfterPut(files, oid, []);
    }
    SameConserved(before, after);
  }
}
