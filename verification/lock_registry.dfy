/**
 The per-repository lock registry. Lock objects are made on demand, counted, and dropped with the last user; the lock
 itself is asyncio's. Tasks only switch where the code awaits, so a run is a sequence of the steps below.
 */
module LockRegistry {
  import opened Prelude

  datatype Key = Key(owner: string, name: string)

  // ----- asyncio.Lock -----

  /** A waiter's future: pending, set, cancelled, or set before the waiter itself was cancelled. */
  datatype Status = Waiting | Woken | Cancelled | WokenCancelled

  datatype Waiter = Waiter(task: nat, status: Status)

  datatype Lock = Lock(locked: bool, waiters: seq<Waiter>)

  predicate FreeToTake(l: Lock) {
    !l.locked && forall w :: w in l.waiters ==> w.status == Cancelled
  }

  /** Sets the first waiter's future unless it is done already. */
  function WakeFirst(l: Lock): Lock {
    if l.waiters != [] && l.waiters[0].status == Waiting
    then l.(waiters := [l.waiters[0].(status := Woken)] + l.waiters[1..])
    else l
  }

  function Without(waiters: seq<Waiter>, task: nat): seq<Waiter> {
    if waiters == [] then []
    else if waiters[0].task == task then waiters[1..]
    else [waiters[0]] + Without(waiters[1..], task)
  }

  function StatusOf(waiters: seq<Waiter>, task: nat): Option<Status> {
    if waiters == [] then None
    else if waiters[0].task == task then Some(waiters[0].status)
    else StatusOf(waiters[1..], task)
  }

  function MarkCancelled(waiters: seq<Waiter>, task: nat): seq<Waiter> {
    if waiters == [] then []
    else
      var w := waiters[0];
      if w.task == task then
        [w.(status := if w.status == Waiting then Cancelled
                      else if w.status == Woken then WokenCancelled else w.status)]
        + waiters[1..]
      else [w] + MarkCancelled(waiters[1..], task)
  }

  // ----- the registry -----

  /** A use of a key, from entering the context manager to leaving it, with the lock object it picked up. */
  datatype Use = Queued(key: Key, lock: nat) | Inside(key: Key, lock: nat)

  /** The registry's two dictionaries, the lock objects, and the uses under way. Given-up counts are history. */
  datatype State = State(locks: map<Key, nat>, refcounts: map<Key, int>, objects: map<nat, Lock>, next: nat,
                         uses: map<nat, Use>, givenUp: map<Key, nat>)

  datatype Event =
    | Enter(task: nat, key: Key) // up to the first await, or into the body when the lock is free
    | Cancel(task: nat)          // the waiting task is cancelled
    | Resume(task: nat)          // a waiting task runs again: it was woken, or cancelled
    | Leave(task: nat)           // the body ends, normally or not

  function GivenUp(s: State, key: Key): nat {
    if key in s.givenUp then s.givenUp[key] else 0
  }

  function LockFor(s: State, key: Key): nat {
    if key in s.locks then s.locks[key] else s.next
  }

  function EnterStep(s: State, task: nat, key: Key): State {
    var lock := LockFor(s, key);
    var obj := if key in s.locks && lock in s.objects then s.objects[lock] else Lock(false, []);
    var count := if key in s.locks && key in s.refcounts then s.refcounts[key] else 0;
    var free := FreeToTake(obj);
    var obj' := if free then obj.(locked := true)
                   else obj.(waiters := obj.waiters + [Waiter(task, Waiting)]);
    State(s.locks[key := lock], s.refcounts[key := count + 1], s.objects[lock := obj'],
          if key in s.locks then s.next else s.next + 1,
          s.uses[task := if free then Inside(key, lock) else Queued(key, lock)], s.givenUp)
  }

  function ResumeStep(s: State, task: nat, use: Use, obj: Lock, status: Status): State {
    var rest := obj.(waiters := Without(obj.waiters, task));
    if status == Woken then
      s.(objects := s.objects[use.lock := rest.(locked := true)], uses := s.uses[task := Inside(use.key, use.lock)])
    else
      s.(objects := s.objects[use.lock := if rest.locked then rest else WakeFirst(rest)], uses := s.uses - {task},
         givenUp := s.givenUp[use.key := GivenUp(s, use.key) + 1])
  }

  function LeaveStep(s: State, task: nat, use: Use, obj: Lock, count: int): State {
    var released := WakeFirst(obj.(locked := false));
    var s' := s.(objects := s.objects[use.lock := released], uses := s.uses - {task});
    if count - 1 <= 0 then s'.(locks := s.locks - {use.key}, refcounts := s.refcounts - {use.key})
    else s'.(refcounts := s.refcounts[use.key := count - 1])
  }

  /** None when the event cannot happen, or when the code would raise (a missing key, an unlocked lock). */
  function Step(s: State, e: Event): Option<State> {
    if e.Enter? then
      if e.task in s.uses then None else Some(EnterStep(s, e.task, e.key))
    else if e.task !in s.uses || s.uses[e.task].lock !in s.objects then None
    else
      var use := s.uses[e.task];
      var obj := s.objects[use.lock];
      match e
      case Cancel(task) =>
        if !use.Queued? then None
        else Some(s.(objects := s.objects[use.lock := obj.(waiters := MarkCancelled(obj.waiters, task))]))
      case Resume(task) =>
        var status := StatusOf(obj.waiters, task);
        if !use.Queued? || status == None || status == Some(Waiting) then None
        else Some(ResumeStep(s, task, use, obj, status.value))
      case Leave(task) =>
        if !use.Inside? || !obj.locked || use.key !in s.refcounts || use.key !in s.locks then None
        else Some(LeaveStep(s, task, use, obj, s.refcounts[use.key]))
  }

  function Run(s: State, events: seq<Event>): Option<State> {
    if events == [] then Some(s)
    else
      match Run(s, events[..|events| - 1])
      case None => None
      case Some(before) => Step(before, events[|events| - 1])
  }

  const EMPTY := State(map[], map[], map[], 0, map[], map[])

  // ----- the invariant -----

  /** Queue discipline of one lock: only the first waiter is ever woken, and only while the lock is free. */
  ghost predicate LockOk(l: Lock) {
    && (forall i, j :: 0 <= i < j < |l.waiters| ==> l.waiters[i].task != l.waiters[j].task)
    && (forall i :: 0 < i < |l.waiters| ==> l.waiters[i].status == Waiting || l.waiters[i].status == Cancelled)
    && (l.waiters != [] ==>
          if l.locked then l.waiters[0].status == Waiting || l.waiters[0].status == Cancelled
          else l.waiters[0].status != Waiting)
  }

  ghost function TaskSet(waiters: seq<Waiter>): set<nat> {
    set i | 0 <= i < |waiters| :: waiters[i].task
  }

  ghost function QueuedFor(s: State, key: Key, lock: nat): set<nat> {
    set t | t in s.uses && s.uses[t] == Queued(key, lock)
  }

  ghost function InsideOf(s: State, key: Key, lock: nat): set<nat> {
    set t | t in s.uses && s.uses[t] == Inside(key, lock)
  }

  ghost function UsesOf(s: State, key: Key): set<nat> {
    set t | t in s.uses && s.uses[t].key == key
  }

  ghost predicate Registered(s: State) {
    && s.locks.Keys == s.refcounts.Keys
    && (forall k :: k in s.locks ==> s.locks[k] in s.objects && s.locks[k] < s.next)
    && (forall k1, k2 :: k1 in s.locks && k2 in s.locks && s.locks[k1] == s.locks[k2] ==> k1 == k2)
  }

  /** Every use refers to the lock that is registered for its key now. */
  ghost predicate UsesCurrent(s: State) {
    forall t :: t in s.uses ==> s.uses[t].key in s.locks && s.uses[t].lock == s.locks[s.uses[t].key]
  }

  /** A lock's waiters are the queued uses of its key; it is taken by the one use that is inside, if any. */
  ghost predicate LockMatches(s: State, key: Key, lock: nat, l: Lock) {
    && LockOk(l)
    && TaskSet(l.waiters) == QueuedFor(s, key, lock)
    && (if l.locked then |InsideOf(s, key, lock)| == 1 else InsideOf(s, key, lock) == {})
  }

  ghost predicate CountOk(s: State, key: Key) {
    if key in s.refcounts then s.refcounts[key] == |UsesOf(s, key)| + GivenUp(s, key) && s.refcounts[key] >= 1
    else GivenUp(s, key) == 0 && UsesOf(s, key) == {}
  }

  ghost predicate Inv(s: State) {
    && Registered(s)
    && UsesCurrent(s)
    && (forall k :: k in s.locks ==> LockMatches(s, k, s.locks[k], s.objects[s.locks[k]]))
    && (forall k :: CountOk(s, k))
  }

  // ----- the queue operations -----

  ghost predicate DistinctTasks(waiters: seq<Waiter>) {
    forall i, j :: 0 <= i < j < |waiters| ==> waiters[i].task != waiters[j].task
  }

  lemma {:induction false} WithoutTasks(waiters: seq<Waiter>, task: nat)
    requires DistinctTasks(waiters)
    ensures TaskSet(Without(waiters, task)) == TaskSet(waiters) - {task}
  {
    if waiters != [] {
      TaskSetCons(waiters);
      if waiters[0].task != task {
        WithoutTasks(waiters[1..], task);
        var r := Without(waiters, task);
        TaskSetCons(r);
        assert r[1..] == Without(waiters[1..], task);
      } else {
        assert task !in TaskSet(waiters[1..]);
      }
    }
  }

  lemma {:induction false} WithoutKeepsWaiters(waiters: seq<Waiter>, task: nat)
    requires DistinctTasks(waiters)
    ensures DistinctTasks(Without(waiters, task)) && forall w :: w in Without(waiters, task) ==> w in waiters
  {
    if waiters != [] && waiters[0].task != task {
      var rest := Without(waiters[1..], task);
      WithoutKeepsWaiters(waiters[1..], task);
      forall j | 0 <= j < |rest| ensures rest[j].task != waiters[0].task {
        assert rest[j] in waiters[1..];
      }
      assert Without(waiters, task) == [waiters[0]] + rest;
    }
  }

  lemma WithoutExact(waiters: seq<Waiter>, task: nat)
    requires DistinctTasks(waiters)
    ensures var r := Without(waiters, task);
            && TaskSet(r) == TaskSet(waiters) - {task}
            && DistinctTasks(r)
            && (forall w :: w in r ==> w in waiters)
            && (waiters != [] && waiters[0].task != task ==>
                  (r != [] && r[0] == waiters[0] && forall w :: w in r[1..] ==> w in waiters[1..]))
            && (waiters != [] && waiters[0].task == task ==> r == waiters[1..])
  {
    WithoutTasks(waiters, task);
    WithoutKeepsWaiters(waiters, task);
    if waiters != [] && waiters[0].task != task {
      WithoutKeepsWaiters(waiters[1..], task);
      assert Without(waiters, task)[1..] == Without(waiters[1..], task);
    }
  }

  lemma TaskSetCons(waiters: seq<Waiter>)
    requires waiters != []
    ensures TaskSet(waiters) == {waiters[0].task} + TaskSet(waiters[1..])
  {
    var rest := waiters[1..];
    forall t ensures t in TaskSet(waiters) <==> t == waiters[0].task || t in TaskSet(rest) {
      if t in TaskSet(waiters) && t != waiters[0].task {
        var i :| 0 <= i < |waiters| && waiters[i].task == t;
        assert rest[i - 1].task == t;
      }
      if t in TaskSet(rest) {
        var i :| 0 <= i < |rest| && rest[i].task == t;
        assert waiters[i + 1].task == t;
      }
    }
  }

  lemma {:induction false} StatusOfExact(waiters: seq<Waiter>, task: nat)
    ensures StatusOf(waiters, task).Some? <==> task in TaskSet(waiters)
    ensures StatusOf(waiters, task).Some? ==>
              exists i :: 0 <= i < |waiters| && waiters[i] == Waiter(task, StatusOf(waiters, task).value)
  {
    if waiters != [] {
      TaskSetCons(waiters);
      if waiters[0].task == task {
        assert waiters[0] == Waiter(task, StatusOf(waiters, task).value);
      } else {
        StatusOfExact(waiters[1..], task);
        if StatusOf(waiters[1..], task).Some? {
          var i :| 0 <= i < |waiters[1..]| && waiters[1..][i] == Waiter(task, StatusOf(waiters[1..], task).value);
          assert waiters[i + 1] == Waiter(task, StatusOf(waiters, task).value);
        }
      }
    }
  }

  lemma {:induction false} MarkCancelledExact(waiters: seq<Waiter>, task: nat)
    ensures var r := MarkCancelled(waiters, task);
            && |r| == |waiters|
            && (forall i :: 0 <= i < |r| ==> r[i].task == waiters[i].task)
            && (forall i :: 0 <= i < |r| ==>
                  (r[i].status == waiters[i].status
                   || (waiters[i].status == Waiting && r[i].status == Cancelled)
                   || (waiters[i].status == Woken && r[i].status == WokenCancelled)))
  {
    if waiters != [] && waiters[0].task != task {
      MarkCancelledExact(waiters[1..], task);
    }
  }

  lemma SameTasks(a: seq<Waiter>, b: seq<Waiter>)
    requires |a| == |b| && forall i :: 0 <= i < |a| ==> a[i].task == b[i].task
    ensures TaskSet(a) == TaskSet(b)
  {
    assert TaskSet(a) <= TaskSet(b) by {
      forall t | t in TaskSet(a) ensures t in TaskSet(b) {
        var i :| 0 <= i < |a| && a[i].task == t;
        assert b[i].task == t;
      }
    }
    assert TaskSet(b) <= TaskSet(a) by {
      forall t | t in TaskSet(b) ensures t in TaskSet(a) {
        var i :| 0 <= i < |b| && b[i].task == t;
        assert a[i].task == t;
      }
    }
  }

  /** Giving up the lock, or a cancelled waiter leaving a free lock, hands the wake-up to the next in line. */
  lemma WakeFirstOk(l: Lock)
    requires forall i, j :: 0 <= i < j < |l.waiters| ==> l.waiters[i].task != l.waiters[j].task
    requires forall i :: 0 < i < |l.waiters| ==> l.waiters[i].status == Waiting || l.waiters[i].status == Cancelled
    requires !l.locked
    ensures LockOk(WakeFirst(l)) && !WakeFirst(l).locked
    ensures TaskSet(WakeFirst(l).waiters) == TaskSet(l.waiters)
  {
    SameTasks(WakeFirst(l).waiters, l.waiters);
  }

  lemma CancelOk(l: Lock, task: nat)
    requires LockOk(l)
    ensures LockOk(l.(waiters := MarkCancelled(l.waiters, task)))
    ensures TaskSet(MarkCancelled(l.waiters, task)) == TaskSet(l.waiters)
  {
    MarkCancelledExact(l.waiters, task);
    SameTasks(MarkCancelled(l.waiters, task), l.waiters);
  }

  /** A woken waiter takes the lock: it was free, and nobody else had been woken. */
  lemma TakeOk(l: Lock, task: nat)
    requires LockOk(l) && StatusOf(l.waiters, task) == Some(Woken)
    ensures !l.locked && LockOk(Lock(true, Without(l.waiters, task)))
    ensures TaskSet(Without(l.waiters, task)) == TaskSet(l.waiters) - {task} && task in TaskSet(l.waiters)
  {
    StatusOfExact(l.waiters, task);
    WithoutExact(l.waiters, task);
    var i :| 0 <= i < |l.waiters| && l.waiters[i] == Waiter(task, Woken);
    assert i == 0;
  }

  lemma AbandonOk(l: Lock, task: nat)
    requires LockOk(l) && StatusOf(l.waiters, task).Some?
    requires StatusOf(l.waiters, task).value == Cancelled || StatusOf(l.waiters, task).value == WokenCancelled
    ensures var rest := l.(waiters := Without(l.waiters, task));
            var l' := if rest.locked then rest else WakeFirst(rest);
            LockOk(l') && l'.locked == l.locked && TaskSet(l'.waiters) == TaskSet(l.waiters) - {task}
    ensures task in TaskSet(l.waiters)
  {
    StatusOfExact(l.waiters, task);
    WithoutExact(l.waiters, task);
    var rest := l.(waiters := Without(l.waiters, task));
    forall i | 0 < i < |rest.waiters| ensures rest.waiters[i].status == Waiting || rest.waiters[i].status == Cancelled {
      if l.waiters[0].task != task {
        assert rest.waiters[i] in rest.waiters[1..];
      } else {
        assert rest.waiters[i] == l.waiters[i + 1];
      }
    }
    if !rest.locked {
      WakeFirstOk(rest);
    }
  }

  // ----- preservation -----

  /** One use, of one key, has changed. */
  ghost predicate OnlyUse(s: State, s': State, task: nat, key: Key) {
    && (forall t :: t != task ==> (t in s.uses <==> t in s'.uses) && (t in s.uses ==> s.uses[t] == s'.uses[t]))
    && (task in s.uses ==> s.uses[task].key == key)
    && (task in s'.uses ==> s'.uses[task].key == key)
    && (forall k :: k != key ==> GivenUp(s', k) == GivenUp(s, k))
    && (forall k :: k != key ==> (k in s.refcounts <==> k in s'.refcounts)
                                 && (k in s.refcounts ==> s.refcounts[k] == s'.refcounts[k]))
  }

  lemma OtherKeys(s: State, s': State, task: nat, key: Key, k: Key, lock: nat, l: Lock)
    requires OnlyUse(s, s', task, key) && k != key
    ensures LockMatches(s, k, lock, l) ==> LockMatches(s', k, lock, l)
    ensures CountOk(s, k) ==> CountOk(s', k)
  {
    assert QueuedFor(s', k, lock) == QueuedFor(s, k, lock);
    assert InsideOf(s', k, lock) == InsideOf(s, k, lock);
    assert UsesOf(s', k) == UsesOf(s, k);
  }

  /** The lock registered for a key fits the uses of the key. */
  ghost predicate MatchesAt(s: State, key: Key) {
    key in s.locks ==>
      s.locks[key] in s.objects && LockMatches(s, key, s.locks[key], s.objects[s.locks[key]])
  }

  /** The other keys keep their locks, and these stay as they are. */
  ghost predicate SameElsewhere(s: State, s': State, key: Key) {
    forall k :: k != key && k in s'.locks ==>
                  && k in s.locks && s.locks[k] == s'.locks[k]
                  && s.locks[k] in s.objects && s'.locks[k] in s'.objects
                  && s.objects[s.locks[k]] == s'.objects[s'.locks[k]]
  }

  /** The invariant after a step on one key, given what the step does to that key. */
  lemma OneKey(s: State, s': State, task: nat, key: Key)
    requires Inv(s) && OnlyUse(s, s', task, key) && SameElsewhere(s, s', key)
    requires Registered(s') && UsesCurrent(s') && CountOk(s', key) && MatchesAt(s', key)
    ensures Inv(s')
  {
    forall k | k in s'.locks ensures LockMatches(s', k, s'.locks[k], s'.objects[s'.locks[k]]) {
      if k != key {
        OtherKeys(s, s', task, key, k, s.locks[k], s.objects[s.locks[k]]);
      }
    }
    forall k ensures CountOk(s', k) {
      if k != key {
        OtherKeys(s, s', task, key, k, 0, Lock(false, []));
      }
    }
  }

  lemma UseAdded(s: State, s': State, task: nat, use: Use)
    requires task !in s.uses && s'.uses == s.uses[task := use]
    ensures |UsesOf(s', use.key)| == |UsesOf(s, use.key)| + 1
  {
    assert UsesOf(s', use.key) == UsesOf(s, use.key) + {task};
    assert task !in UsesOf(s, use.key);
  }

  lemma UseQueues(s: State, s': State, task: nat, use: Use)
    requires task !in s.uses && s'.uses == s.uses[task := use] && use.Queued?
    ensures QueuedFor(s', use.key, use.lock) == QueuedFor(s, use.key, use.lock) + {task}
    ensures InsideOf(s', use.key, use.lock) == InsideOf(s, use.key, use.lock)
    ensures task !in QueuedFor(s, use.key, use.lock)
  {
  }

  lemma UseGoesIn(s: State, s': State, task: nat, use: Use)
    requires task !in s.uses && s'.uses == s.uses[task := use] && use.Inside?
    ensures QueuedFor(s', use.key, use.lock) == QueuedFor(s, use.key, use.lock)
    ensures InsideOf(s', use.key, use.lock) == InsideOf(s, use.key, use.lock) + {task}
  {
  }

  lemma UseRemoved(s: State, s': State, task: nat, use: Use)
    requires task in s.uses && s.uses[task] == use && s'.uses == s.uses - {task}
    ensures |UsesOf(s', use.key)| == |UsesOf(s, use.key)| - 1
    ensures UsesOf(s', use.key) == {} <==> |UsesOf(s, use.key)| == 1
    ensures QueuedFor(s', use.key, use.lock) == QueuedFor(s, use.key, use.lock) - {task}
    ensures InsideOf(s', use.key, use.lock) == InsideOf(s, use.key, use.lock) - {task}
    ensures if use.Inside? then task in InsideOf(s, use.key, use.lock) && task !in QueuedFor(s, use.key, use.lock)
            else task in QueuedFor(s, use.key, use.lock) && task !in InsideOf(s, use.key, use.lock)
  {
    assert UsesOf(s', use.key) == UsesOf(s, use.key) - {task};
    assert task in UsesOf(s, use.key);
  }

  lemma UseMoved(s: State, s': State, task: nat, use: Use)
    requires task in s.uses && s.uses[task] == use && use.Queued?
    requires s'.uses == s.uses[task := Inside(use.key, use.lock)]
    ensures UsesOf(s', use.key) == UsesOf(s, use.key)
    ensures QueuedFor(s', use.key, use.lock) == QueuedFor(s, use.key, use.lock) - {task}
    ensures InsideOf(s', use.key, use.lock) == InsideOf(s, use.key, use.lock) + {task}
  {
  }

  lemma EnterMatches(s: State, s': State, task: nat, use: Use, before: Lock)
    requires task !in s.uses && s'.uses == s.uses[task := use]
    requires LockMatches(s, use.key, use.lock, before) && use.Inside? == FreeToTake(before)
    ensures LockMatches(s', use.key, use.lock,
                        if FreeToTake(before) then before.(locked := true)
                        else before.(waiters := before.waiters + [Waiter(task, Waiting)]))
  {
    if FreeToTake(before) {
      UseGoesIn(s, s', task, use);
    } else {
      UseQueues(s, s', task, use);
      AppendExact(before, Waiter(task, Waiting));
    }
  }

  lemma NobodyUses(s: State, key: Key, lock: nat)
    requires Inv(s) && key !in s.locks
    ensures LockMatches(s, key, lock, Lock(false, [])) && UsesOf(s, key) == {} && GivenUp(s, key) == 0
  {
    assert CountOk(s, key);
    assert QueuedFor(s, key, lock) <= UsesOf(s, key) && InsideOf(s, key, lock) <= UsesOf(s, key);
  }

  lemma EnterRegisters(s: State, task: nat, key: Key)
    requires Registered(s) && UsesCurrent(s) && task !in s.uses
    requires key !in s.locks ==> UsesOf(s, key) == {}
    ensures Registered(EnterStep(s, task, key)) && UsesCurrent(EnterStep(s, task, key))
  {
    var s' := EnterStep(s, task, key);
    forall t | t in s'.uses ensures s'.uses[t].key in s'.locks && s'.uses[t].lock == s'.locks[s'.uses[t].key] {
      if t != task && key !in s.locks {
        assert t !in UsesOf(s, key);
      }
    }
  }

  lemma EnterOnly(s: State, task: nat, key: Key)
    requires task !in s.uses && Registered(s)
    ensures OnlyUse(s, EnterStep(s, task, key), task, key)
    ensures SameElsewhere(s, EnterStep(s, task, key), key)
  {
  }

  lemma ResumeOnly(s: State, task: nat, use: Use, l: Lock, status: Status)
    requires task in s.uses && s.uses[task] == use && Registered(s) && UsesCurrent(s)
    ensures OnlyUse(s, ResumeStep(s, task, use, l, status), task, use.key)
    ensures SameElsewhere(s, ResumeStep(s, task, use, l, status), use.key)
  {
    var s' := ResumeStep(s, task, use, l, status);
    OneUseMoved(s, s', task, use.key);
    OtherLocksStay(s, s', use.key, use.lock, s'.objects[use.lock]);
  }

  lemma OneUseMoved(s: State, s': State, task: nat, key: Key)
    requires task in s.uses && s.uses[task].key == key && (task in s'.uses ==> s'.uses[task].key == key)
    requires forall t :: t != task ==> (t in s.uses <==> t in s'.uses) && (t in s.uses ==> s.uses[t] == s'.uses[t])
    requires s'.givenUp == s.givenUp || s'.givenUp == s.givenUp[key := GivenUp(s', key)]
    requires s'.refcounts == s.refcounts || s'.refcounts == s.refcounts - {key}
             || (key in s'.refcounts && s'.refcounts == s.refcounts[key := s'.refcounts[key]])
    ensures OnlyUse(s, s', task, key)
  {
  }

  /** Only the lock of this key has changed, if it is still registered. */
  lemma OtherLocksStay(s: State, s': State, key: Key, lock: nat, l: Lock)
    requires Registered(s) && key in s.locks && s.locks[key] == lock && s'.objects == s.objects[lock := l]
    requires forall k :: k != key && k in s'.locks ==> k in s.locks && s.locks[k] == s'.locks[k]
    ensures SameElsewhere(s, s', key)
  {
  }

  lemma LeaveOnly(s: State, task: nat, use: Use, l: Lock, count: int)
    requires task in s.uses && s.uses[task] == use && Registered(s) && UsesCurrent(s)
    ensures OnlyUse(s, LeaveStep(s, task, use, l, count), task, use.key)
    ensures SameElsewhere(s, LeaveStep(s, task, use, l, count), use.key)
  {
    var s' := LeaveStep(s, task, use, l, count);
    OneUseMoved(s, s', task, use.key);
    OtherLocksStay(s, s', use.key, use.lock, s'.objects[use.lock]);
  }

  lemma EnterCounts(s: State, task: nat, key: Key)
    requires task !in s.uses && CountOk(s, key) && s.locks.Keys == s.refcounts.Keys
    ensures CountOk(EnterStep(s, task, key), key)
  {
    var s' := EnterStep(s, task, key);
    UseAdded(s, s', task, s'.uses[task]);
  }

  lemma EnterMatchesAt(s: State, task: nat, key: Key)
    requires Inv(s) && task !in s.uses
    ensures MatchesAt(EnterStep(s, task, key), key)
  {
    var s' := EnterStep(s, task, key);
    var use := s'.uses[task];
    if key in s.locks {
      EnterMatches(s, s', task, use, s.objects[use.lock]);
    } else {
      NobodyUses(s, key, use.lock);
      EnterMatches(s, s', task, use, Lock(false, []));
    }
  }

  lemma EnterKeeps(s: State, task: nat, key: Key)
    requires Inv(s) && task !in s.uses
    ensures Inv(EnterStep(s, task, key))
  {
    assert CountOk(s, key);
    EnterCounts(s, task, key);
    EnterMatchesAt(s, task, key);
    EnterRegisters(s, task, key);
    EnterOnly(s, task, key);
    OneKey(s, EnterStep(s, task, key), task, key);
  }

  lemma AppendExact(l: Lock, w: Waiter)
    requires LockOk(l) && w.task !in TaskSet(l.waiters) && w.status == Waiting && !FreeToTake(l)
    ensures LockOk(l.(waiters := l.waiters + [w]))
    ensures TaskSet(l.waiters + [w]) == TaskSet(l.waiters) + {w.task}
  {
    var all := l.waiters + [w];
    forall i | 0 <= i < |l.waiters| ensures l.waiters[i].task in TaskSet(l.waiters) {}
    forall t ensures t in TaskSet(all) <==> t in TaskSet(l.waiters) || t == w.task {
      if t in TaskSet(l.waiters) {
        var i :| 0 <= i < |l.waiters| && l.waiters[i].task == t;
        assert all[i].task == t;
      }
      assert all[|l.waiters|].task == w.task;
    }
  }

  lemma CancelKeeps(s: State, task: nat)
    requires Inv(s) && Step(s, Cancel(task)).Some?
    ensures Inv(Step(s, Cancel(task)).value)
  {
    var s' := Step(s, Cancel(task)).value;
    var use := s.uses[task];
    CancelMatchesAt(s, s', task, use);
    WaitersOnly(s, s', task, use, s'.objects[use.lock]);
    OneKey(s, s', task, use.key);
  }

  /** A change to one lock's waiters touches no dictionary and no use. */
  lemma WaitersOnly(s: State, s': State, task: nat, use: Use, l: Lock)
    requires Inv(s) && task in s.uses && s.uses[task] == use && s' == s.(objects := s.objects[use.lock := l])
    ensures Registered(s') && UsesCurrent(s') && CountOk(s', use.key)
    ensures OnlyUse(s, s', task, use.key) && SameElsewhere(s, s', use.key)
  {
    SameCount(s, s', use.key);
    ObjectChanged(s, s', task, use, l);
  }

  lemma SameCount(s: State, s': State, key: Key)
    requires (forall k :: CountOk(s, k)) && s'.uses == s.uses && s'.refcounts == s.refcounts && s'.givenUp == s.givenUp
    ensures CountOk(s', key)
  {
    assert CountOk(s, key) && UsesOf(s', key) == UsesOf(s, key);
  }

  lemma ObjectChanged(s: State, s': State, task: nat, use: Use, l: Lock)
    requires Registered(s) && UsesCurrent(s) && task in s.uses && s.uses[task] == use
    requires s' == s.(objects := s.objects[use.lock := l])
    ensures Registered(s') && UsesCurrent(s')
    ensures OnlyUse(s, s', task, use.key) && SameElsewhere(s, s', use.key)
  {
  }

  lemma CancelMatchesAt(s: State, s': State, task: nat, use: Use)
    requires Inv(s) && task in s.uses && s.uses[task] == use
    requires s' == s.(objects := s.objects[use.lock := s.objects[use.lock].(
                                           waiters := MarkCancelled(s.objects[use.lock].waiters, task))])
    ensures MatchesAt(s', use.key)
  {
    assert LockMatches(s, use.key, use.lock, s.objects[use.lock]);
    CancelOk(s.objects[use.lock], task);
    assert QueuedFor(s', use.key, use.lock) == QueuedFor(s, use.key, use.lock);
    assert InsideOf(s', use.key, use.lock) == InsideOf(s, use.key, use.lock);
  }

  lemma TakeMatches(s: State, s': State, task: nat, use: Use, l: Lock)
    requires task in s.uses && s.uses[task] == use && use.Queued?
    requires s'.uses == s.uses[task := Inside(use.key, use.lock)]
    requires LockMatches(s, use.key, use.lock, l) && StatusOf(l.waiters, task) == Some(Woken)
    ensures LockMatches(s', use.key, use.lock, Lock(true, Without(l.waiters, task)))
    ensures UsesOf(s', use.key) == UsesOf(s, use.key)
  {
    TakeOk(l, task);
    UseMoved(s, s', task, use);
  }

  lemma AbandonMatches(s: State, s': State, task: nat, use: Use, l: Lock)
    requires task in s.uses && s.uses[task] == use && use.Queued? && s'.uses == s.uses - {task}
    requires LockMatches(s, use.key, use.lock, l) && StatusOf(l.waiters, task).Some?
    requires StatusOf(l.waiters, task).value == Cancelled || StatusOf(l.waiters, task).value == WokenCancelled
    ensures var rest := l.(waiters := Without(l.waiters, task));
            LockMatches(s', use.key, use.lock, if rest.locked then rest else WakeFirst(rest))
  {
    AbandonOk(l, task);
    UseRemoved(s, s', task, use);
  }

  lemma TakeRegisters(s: State, task: nat, use: Use, l: Lock)
    requires Inv(s) && task in s.uses && s.uses[task] == use && use.Queued?
    ensures var s' := ResumeStep(s, task, use, l, Woken); Registered(s') && UsesCurrent(s') && CountOk(s', use.key)
  {
    assert CountOk(s, use.key);
    UseMoved(s, ResumeStep(s, task, use, l, Woken), task, use);
  }

  lemma AbandonRegisters(s: State, task: nat, use: Use, l: Lock, status: Status)
    requires Inv(s) && task in s.uses && s.uses[task] == use && use.Queued? && status != Woken
    ensures var s' := ResumeStep(s, task, use, l, status); Registered(s') && UsesCurrent(s') && CountOk(s', use.key)
  {
    assert CountOk(s, use.key);
    UseRemoved(s, ResumeStep(s, task, use, l, status), task, use);
  }

  lemma TakeKeeps(s: State, task: nat, use: Use, l: Lock)
    requires Inv(s) && task in s.uses && s.uses[task] == use && use.Queued? && s.objects[use.lock] == l
    requires StatusOf(l.waiters, task) == Some(Woken)
    ensures Inv(ResumeStep(s, task, use, l, Woken))
  {
    var s' := ResumeStep(s, task, use, l, Woken);
    assert LockMatches(s, use.key, use.lock, l);
    TakeMatches(s, s', task, use, l);
    TakeRegisters(s, task, use, l);
    ResumeOnly(s, task, use, l, Woken);
    OneKey(s, s', task, use.key);
  }

  lemma AbandonKeeps(s: State, task: nat, use: Use, l: Lock, status: Status)
    requires Inv(s) && task in s.uses && s.uses[task] == use && use.Queued? && s.objects[use.lock] == l
    requires StatusOf(l.waiters, task) == Some(status) && (status == Cancelled || status == WokenCancelled)
    ensures Inv(ResumeStep(s, task, use, l, status))
  {
    var s' := ResumeStep(s, task, use, l, status);
    assert LockMatches(s, use.key, use.lock, l);
    AbandonMatches(s, s', task, use, l);
    AbandonRegisters(s, task, use, l, status);
    ResumeOnly(s, task, use, l, status);
    OneKey(s, s', task, use.key);
  }

  lemma LeaveMatches(s: State, s': State, task: nat, use: Use, l: Lock)
    requires task in s.uses && s.uses[task] == use && use.Inside? && s'.uses == s.uses - {task}
    requires LockMatches(s, use.key, use.lock, l) && l.locked
    ensures LockMatches(s', use.key, use.lock, WakeFirst(l.(locked := false)))
  {
    UseRemoved(s, s', task, use);
    WakeFirstOk(l.(locked := false));
    SingletonGone(InsideOf(s, use.key, use.lock), task);
  }

  lemma LeaveKeeps(s: State, task: nat, use: Use, l: Lock)
    requires Inv(s) && task in s.uses && s.uses[task] == use && use.Inside? && s.objects[use.lock] == l && l.locked
    ensures Inv(LeaveStep(s, task, use, l, s.refcounts[use.key]))
  {
    var s' := LeaveStep(s, task, use, l, s.refcounts[use.key]);
    assert LockMatches(s, use.key, use.lock, l);
    LeaveMatches(s, s', task, use, l);
    LeaveRegisters(s, task, use, l);
    LeaveOnly(s, task, use, l, s.refcounts[use.key]);
    OneKey(s, s', task, use.key);
  }

  lemma LeaveRegisters(s: State, task: nat, use: Use, l: Lock)
    requires Inv(s) && task in s.uses && s.uses[task] == use && use.Inside?
    ensures var s' := LeaveStep(s, task, use, l, s.refcounts[use.key]);
            Registered(s') && UsesCurrent(s') && CountOk(s', use.key)
  {
    var s' := LeaveStep(s, task, use, l, s.refcounts[use.key]);
    assert CountOk(s, use.key);
    LeaveCounts(s, task, use, l, s');
    if s.refcounts[use.key] == 1 {
      NoUseLeft(s, s', task, use);
    }
  }

  lemma LeaveCounts(s: State, task: nat, use: Use, l: Lock, s': State)
    requires CountOk(s, use.key) && use.key in s.refcounts && task in s.uses && s.uses[task] == use
    requires s' == LeaveStep(s, task, use, l, s.refcounts[use.key])
    ensures CountOk(s', use.key)
  {
    UseRemoved(s, s', task, use);
  }

  /** The count reaches zero only when no other use of the key is left. */
  lemma NoUseLeft(s: State, s': State, task: nat, use: Use)
    requires Inv(s) && task in s.uses && s.uses[task] == use && s'.uses == s.uses - {task}
    requires use.key in s.refcounts && s.refcounts[use.key] == 1
    ensures forall t :: t in s'.uses ==> s'.uses[t].key != use.key
    ensures GivenUp(s, use.key) == 0
  {
    assert CountOk(s, use.key);
    assert task in UsesOf(s, use.key);
    assert |UsesOf(s, use.key)| == 1;
    SingletonGone(UsesOf(s, use.key), task);
    forall t | t in s'.uses ensures s'.uses[t].key != use.key {
      assert t !in UsesOf(s, use.key) - {task};
    }
  }

  lemma SingletonGone<T>(s: set<T>, x: T)
    requires x in s && |s| == 1
    ensures s - {x} == {}
  {
    assert |s - {x}| == 0;
  }

  lemma StepKeeps(s: State, e: Event)
    requires Inv(s) && Step(s, e).Some?
    ensures Inv(Step(s, e).value)
  {
    match e
    case Enter(task, key) => EnterKeeps(s, task, key);
    case Cancel(task) => CancelKeeps(s, task);
    case Resume(task) =>
      var use := s.uses[task];
      var l := s.objects[use.lock];
      if StatusOf(l.waiters, task) == Some(Woken) {
        TakeKeeps(s, task, use, l);
      } else {
        AbandonKeeps(s, task, use, l, StatusOf(l.waiters, task).value);
      }
    case Leave(task) => LeaveKeeps(s, task, s.uses[task], s.objects[s.uses[task].lock]);
  }

  /** Every state that any interleaving can reach satisfies the invariant. */
  lemma {:induction false} Reachable(events: seq<Event>)
    requires Run(EMPTY, events).Some?
    ensures Inv(Run(EMPTY, events).value)
  {
    if events == [] {
      assert forall k :: UsesOf(EMPTY, k) == {};
    } else {
      Reachable(events[..|events| - 1]);
      StepKeeps(Run(EMPTY, events[..|events| - 1]).value, events[|events| - 1]);
    }
  }

  // ----- the main results -----

  lemma OneInside(s: State, t1: nat, t2: nat)
    requires Inv(s) && t1 in s.uses && t2 in s.uses && s.uses[t1].Inside? && s.uses[t2].Inside?
    requires s.uses[t1].key == s.uses[t2].key
    ensures t1 == t2
  {
    var key := s.uses[t1].key;
    var lock := s.locks[key];
    assert LockMatches(s, key, lock, s.objects[lock]);
    assert t1 in InsideOf(s, key, lock) && t2 in InsideOf(s, key, lock);
    SingletonGone(InsideOf(s, key, lock), t1);
    assert t2 !in InsideOf(s, key, lock) - {t1};
  }

  /**
   In every reachable state at most one use of a key is inside, although the lock behind the key comes and goes: every
   use, waiting or inside, holds on to the lock that is registered for its key at that moment.
   */
  lemma MutualExclusion(events: seq<Event>)
    requires Run(EMPTY, events).Some?
    ensures var s := Run(EMPTY, events).value;
            && (forall t1, t2 :: (t1 in s.uses && t2 in s.uses && s.uses[t1].Inside? && s.uses[t2].Inside?
                                  && s.uses[t1].key == s.uses[t2].key) ==> t1 == t2)
            && (forall t :: t in s.uses ==> s.uses[t].key in s.locks && s.uses[t].lock == s.locks[s.uses[t].key])
  {
    Reachable(events);
    var s := Run(EMPTY, events).value;
    forall t1, t2 | t1 in s.uses && t2 in s.uses && s.uses[t1].Inside? && s.uses[t2].Inside?
                    && s.uses[t1].key == s.uses[t2].key
      ensures t1 == t2
    {
      OneInside(s, t1, t2);
    }
  }

  /**
   In every reachable state the two dictionaries have the same keys, and a count is the number of uses of the key plus
   the number of uses that were cancelled while waiting, which the code never takes off again.
   */
  lemma RefcountsExact(events: seq<Event>)
    requires Run(EMPTY, events).Some?
    ensures var s := Run(EMPTY, events).value;
            && s.locks.Keys == s.refcounts.Keys
            && (forall k :: k in s.refcounts ==> s.refcounts[k] == |UsesOf(s, k)| + GivenUp(s, k))
            && (forall k :: k !in s.refcounts ==> UsesOf(s, k) == {} && GivenUp(s, k) == 0)
  {
    Reachable(events);
    CountsExact(Run(EMPTY, events).value);
  }

  lemma CountsExact(s: State)
    requires Inv(s)
    ensures s.locks.Keys == s.refcounts.Keys
    ensures forall k :: k in s.refcounts ==> s.refcounts[k] == |UsesOf(s, k)| + GivenUp(s, k)
    ensures forall k :: k !in s.refcounts ==> UsesOf(s, k) == {} && GivenUp(s, k) == 0
  {
    forall k | k in s.refcounts ensures s.refcounts[k] == |UsesOf(s, k)| + GivenUp(s, k) {
      assert CountOk(s, k);
    }
    forall k | k !in s.refcounts ensures UsesOf(s, k) == {} && GivenUp(s, k) == 0 {
      assert CountOk(s, k);
    }
  }

  /** Leaving never raises: the key is still there, and its lock is taken. */
  lemma LeavingNeverRaises(events: seq<Event>, task: nat)
    requires Run(EMPTY, events).Some?
    requires var s := Run(EMPTY, events).value; task in s.uses && s.uses[task].Inside?
    ensures Step(Run(EMPTY, events).value, Leave(task)).Some?
  {
    Reachable(events);
    var s := Run(EMPTY, events).value;
    var use := s.uses[task];
    assert LockMatches(s, use.key, use.lock, s.objects[use.lock]);
    assert task in InsideOf(s, use.key, use.lock);
  }

  /** No wake-up is lost: behind every waiting use somebody can move, the one inside or the first in the queue. */
  lemma WaitersAreNeverStranded(events: seq<Event>, task: nat) returns (next: Event)
    requires Run(EMPTY, events).Some?
    requires var s := Run(EMPTY, events).value; task in s.uses && s.uses[task].Queued?
    ensures var s := Run(EMPTY, events).value;
            && (next.Leave? || next.Resume?) && Step(s, next).Some?
            && next.task in s.uses && s.uses[next.task].key == s.uses[task].key
  {
    Reachable(events);
    var s := Run(EMPTY, events).value;
    var use := s.uses[task];
    var l := s.objects[use.lock];
    assert LockMatches(s, use.key, use.lock, l);
    if l.locked {
      var t :| t in InsideOf(s, use.key, use.lock);
      next := Leave(t);
    } else {
      assert task in TaskSet(l.waiters);
      assert l.waiters[0].task in TaskSet(l.waiters);
      next := Resume(l.waiters[0].task);
    }
  }

  /**
   Once nobody uses a key, its lock is gone from the registry exactly when no use of the key was ever cancelled while
   waiting for this lock.
   */
  lemma RegistryEmptiesIff(events: seq<Event>, key: Key)
    requires Run(EMPTY, events).Some? && UsesOf(Run(EMPTY, events).value, key) == {}
    ensures var s := Run(EMPTY, events).value; key !in s.locks <==> GivenUp(s, key) == 0
  {
    Reachable(events);
    assert CountOk(Run(EMPTY, events).value, key);
  }

  lemma {:induction false} NothingGivenUp(events: seq<Event>)
    requires Run(EMPTY, events).Some? && forall e :: e in events ==> !e.Cancel?
    ensures var s := Run(EMPTY, events).value;
            && s.givenUp == map[]
            && forall l: nat :: l in s.objects ==> NoneCancelled(s.objects[l].waiters)
  {
    if events != [] {
      var init, e := events[..|events| - 1], events[|events| - 1];
      NothingGivenUp(init);
      assert e in events;
      var s := Run(EMPTY, init).value;
      if e.Resume? {
        StatusOfExact(s.objects[s.uses[e.task].lock].waiters, e.task);
        WithoutKeeps(s.objects[s.uses[e.task].lock].waiters, e.task);
      }
    }
  }

  ghost predicate NoneCancelled(waiters: seq<Waiter>) {
    forall w :: w in waiters ==> w.status == Waiting || w.status == Woken
  }

  lemma {:induction false} WithoutKeeps(waiters: seq<Waiter>, task: nat)
    ensures NoneCancelled(waiters) ==> NoneCancelled(Without(waiters, task))
  {
    if waiters != [] && waiters[0].task != task {
      WithoutKeeps(waiters[1..], task);
    }
  }

  // A cancelled waiter stays cancelled until it runs again, and then gives up.

  predicate IsCancelled(status: Option<Status>) {
    status == Some(Cancelled) || status == Some(WokenCancelled)
  }

  lemma {:induction false} StatusOfAppend(waiters: seq<Waiter>, last: Waiter, task: nat)
    ensures StatusOf(waiters, task).Some? ==> StatusOf(waiters + [last], task) == StatusOf(waiters, task)
  {
    if waiters != [] {
      StatusOfAppend(waiters[1..], last, task);
      assert (waiters + [last])[1..] == waiters[1..] + [last];
    }
  }

  lemma {:induction false} StatusOfMark(waiters: seq<Waiter>, marked: nat, task: nat)
    ensures IsCancelled(StatusOf(waiters, task)) ==> IsCancelled(StatusOf(MarkCancelled(waiters, marked), task))
    ensures task in TaskSet(waiters) ==> IsCancelled(StatusOf(MarkCancelled(waiters, task), task))
  {
    if waiters != [] {
      TaskSetCons(waiters);
      StatusOfMark(waiters[1..], marked, task);
    }
  }

  lemma {:induction false} StatusOfWithout(waiters: seq<Waiter>, other: nat, task: nat)
    requires other != task
    ensures StatusOf(Without(waiters, other), task) == StatusOf(waiters, task)
  {
    if waiters != [] {
      StatusOfWithout(waiters[1..], other, task);
    }
  }

  lemma StatusOfWake(l: Lock, task: nat)
    requires IsCancelled(StatusOf(l.waiters, task))
    ensures IsCancelled(StatusOf(WakeFirst(l).waiters, task))
  {
  }

  ghost predicate Doomed(s: State, task: nat) {
    && task in s.uses && s.uses[task].Queued? && s.uses[task].lock in s.objects
    && IsCancelled(StatusOf(s.objects[s.uses[task].lock].waiters, task))
  }

  /** A cancellation has left a trace: a use has given up, or is about to. */
  ghost predicate Marked(s: State) {
    (exists k :: GivenUp(s, k) > 0) || (exists t :: Doomed(s, t))
  }

  lemma CancelMarks(s: State, task: nat)
    requires Inv(s) && Step(s, Cancel(task)).Some?
    ensures Doomed(Step(s, Cancel(task)).value, task)
  {
    var use := s.uses[task];
    var l := s.objects[use.lock];
    assert LockMatches(s, use.key, use.lock, l);
    assert task in QueuedFor(s, use.key, use.lock);
    StatusOfMark(l.waiters, task, task);
  }

  lemma EnterKeepsDoomed(s: State, e: Event, task: nat)
    requires Inv(s) && e.Enter? && Step(s, e).Some? && Doomed(s, task)
    ensures Doomed(Step(s, e).value, task)
  {
    var lock := s.uses[task].lock;
    assert lock == s.locks[s.uses[task].key] && lock < s.next;
    StatusOfAppend(s.objects[lock].waiters, Waiter(e.task, Waiting), task);
  }

  lemma ResumeKeepsDoomed(s: State, other: nat, use: Use, l: Lock, status: Status, task: nat)
    requires Doomed(s, task) && other != task && use.lock in s.objects && l == s.objects[use.lock]
    ensures Doomed(ResumeStep(s, other, use, l, status), task)
  {
    var rest := l.(waiters := Without(l.waiters, other));
    StatusOfWithout(l.waiters, other, task);
    if s.uses[task].lock == use.lock {
      StatusOfWake(rest, task);
    }
  }

  lemma LeaveKeepsDoomed(s: State, other: nat, use: Use, l: Lock, count: int, task: nat)
    requires Doomed(s, task) && other != task && use.lock in s.objects && l == s.objects[use.lock]
    ensures Doomed(LeaveStep(s, other, use, l, count), task)
  {
    if s.uses[task].lock == use.lock {
      StatusOfWake(l.(locked := false), task);
    }
  }

  lemma StepKeepsDoomed(s: State, e: Event, task: nat)
    requires Inv(s) && Step(s, e).Some? && Doomed(s, task)
    ensures Doomed(Step(s, e).value, task) || exists k :: GivenUp(Step(s, e).value, k) > 0
  {
    match e
    case Enter(_, _) => EnterKeepsDoomed(s, e, task);
    case Cancel(other) => CancelKeepsDoomed(s, other, task);
    case Leave(other) =>
      LeaveKeepsDoomed(s, other, s.uses[other], s.objects[s.uses[other].lock], s.refcounts[s.uses[other].key], task);
    case Resume(other) =>
      var use := s.uses[other];
      var l := s.objects[use.lock];
      ResumeGivesUpOrKeeps(s, other, use, l, StatusOf(l.waiters, other).value, task);
  }

  lemma CancelKeepsDoomed(s: State, other: nat, task: nat)
    requires Step(s, Cancel(other)).Some? && Doomed(s, task)
    ensures Doomed(Step(s, Cancel(other)).value, task)
  {
    StatusOfMark(s.objects[s.uses[other].lock].waiters, other, task);
  }

  lemma ResumeGivesUpOrKeeps(s: State, other: nat, use: Use, l: Lock, status: Status, task: nat)
    requires Doomed(s, task) && other in s.uses && use == s.uses[other] && use.lock in s.objects
    requires l == s.objects[use.lock] && StatusOf(l.waiters, other) == Some(status)
    ensures var s' := ResumeStep(s, other, use, l, status); Doomed(s', task) || exists k :: GivenUp(s', k) > 0
  {
    if other == task {
      assert GivenUp(ResumeStep(s, task, use, l, status), use.key) > 0;
    } else {
      ResumeKeepsDoomed(s, other, use, l, status, task);
    }
  }

  lemma GivenUpStays(s: State, e: Event, key: Key)
    requires Step(s, e).Some?
    ensures GivenUp(Step(s, e).value, key) >= GivenUp(s, key)
  {
  }

  lemma {:induction false} CancelLeavesItsMark(events: seq<Event>)
    requires Run(EMPTY, events).Some? && exists e :: e in events && e.Cancel?
    ensures Marked(Run(EMPTY, events).value)
  {
    var init, last := events[..|events| - 1], events[|events| - 1];
    assert events == init + [last];
    Reachable(init);
    var s := Run(EMPTY, init).value;
    if last.Cancel? {
      CancelMarks(s, last.task);
    } else {
      CancelLeavesItsMark(init);
      if k :| GivenUp(s, k) > 0 {
        GivenUpStays(s, last, k);
      } else {
        var t :| Doomed(s, t);
        StepKeepsDoomed(s, last, t);
      }
    }
  }

  /** When all uses have ended, both dictionaries are empty again if and only if no waiting task was ever cancelled. */
  lemma RegistryEmptyAfterAllIff(events: seq<Event>)
    requires Run(EMPTY, events).Some? && Run(EMPTY, events).value.uses == map[]
    ensures var s := Run(EMPTY, events).value;
            s.locks == map[] && s.refcounts == map[] <==> forall e :: e in events ==> !e.Cancel?
  {
    Reachable(events);
    var s := Run(EMPTY, events).value;
    if forall e :: e in events ==> !e.Cancel? {
      NothingGivenUp(events);
      forall k ensures k !in s.locks {
        assert CountOk(s, k) && UsesOf(s, k) == {};
      }
    } else {
      CancelLeavesItsMark(events);
      var k :| GivenUp(s, k) > 0;
      assert CountOk(s, k);
    }
  }

  function FirstInside(key: Key): State {
    State(map[key := 0], map[key := 1], map[0 := Lock(true, [])], 1, map[1 := Inside(key, 0)], map[])
  }

  function SecondQueued(key: Key, status: Status): State {
    State(map[key := 0], map[key := 2], map[0 := Lock(true, [Waiter(2, status)])], 1,
          map[1 := Inside(key, 0), 2 := Queued(key, 0)], map[])
  }

  lemma FirstEnters(key: Key)
    ensures Step(EMPTY, Enter(1, key)) == Some(FirstInside(key))
  {
    assert EnterStep(EMPTY, 1, key) == FirstInside(key);
  }

  lemma SecondEnters(key: Key)
    ensures Step(FirstInside(key), Enter(2, key)) == Some(SecondQueued(key, Waiting))
  {
    var s := FirstInside(key);
    assert s.objects[0].waiters + [Waiter(2, Waiting)] == [Waiter(2, Waiting)];
    assert EnterStep(s, 2, key) == SecondQueued(key, Waiting);
  }

  lemma SecondCancelled(key: Key)
    ensures Step(SecondQueued(key, Waiting), Cancel(2)) == Some(SecondQueued(key, Cancelled))
  {
    var s := SecondQueued(key, Waiting);
    var l := s.objects[0].(waiters := MarkCancelled(s.objects[0].waiters, 2));
    assert MarkCancelled([Waiter(2, Waiting)], 2) == [Waiter(2, Cancelled)];
    assert s.objects[0 := l] == SecondQueued(key, Cancelled).objects;
  }

  lemma RunThree(s: State, s1: State, s2: State, s3: State, e1: Event, e2: Event, e3: Event)
    requires Step(s, e1) == Some(s1) && Step(s1, e2) == Some(s2) && Step(s2, e3) == Some(s3)
    ensures Run(s, [e1, e2, e3]) == Some(s3)
  {
    assert Run(s, []) == Some(s);
    assert [] + [e1] == [e1] && [e1] + [e2] == [e1, e2] && [e1, e2] + [e3] == [e1, e2, e3];
    RunNext(s, [], s, e1);
    RunNext(s, [e1], s1, e2);
    RunNext(s, [e1, e2], s2, e3);
  }

  lemma OthersLeave(key: Key, s: State) returns (s1: State, s2: State)
    requires s == SecondQueued(key, Cancelled)
    ensures Step(s, Resume(2)) == Some(s1) && Step(s1, Leave(1)) == Some(s2)
    ensures s2.uses == map[] && key in s2.locks
  {
    assert StatusOf([Waiter(2, Cancelled)], 2) == Some(Cancelled) && Without([Waiter(2, Cancelled)], 2) == [];
    s1 := ResumeStep(s, 2, Queued(key, 0), s.objects[0], Cancelled);
    s2 := LeaveStep(s1, 1, Inside(key, 0), s1.objects[0], 2);
  }

  lemma RunFive(s3: State, s4: State, s5: State, e1: Event, e2: Event, e3: Event, e4: Event, e5: Event)
    requires Run(EMPTY, [e1, e2, e3]) == Some(s3) && Step(s3, e4) == Some(s4) && Step(s4, e5) == Some(s5)
    ensures Run(EMPTY, [e1, e2, e3, e4, e5]) == Some(s5)
  {
    assert [e1, e2, e3] + [e4] == [e1, e2, e3, e4] && [e1, e2, e3, e4] + [e5] == [e1, e2, e3, e4, e5];
    RunNext(EMPTY, [e1, e2, e3], s3, e4);
    RunNext(EMPTY, [e1, e2, e3, e4], s4, e5);
  }

  /** One cancelled waiter is enough to keep an unused lock in the registry. */
  lemma CancelledWaiterLeaks(key: Key)
    ensures var events := [Enter(1, key), Enter(2, key), Cancel(2), Resume(2), Leave(1)];
            var r := Run(EMPTY, events);
            r.Some? && r.value.uses == map[] && key in r.value.locks
  {
    var s3 := SecondQueued(key, Cancelled);
    FirstEnters(key);
    SecondEnters(key);
    SecondCancelled(key);
    RunThree(EMPTY, FirstInside(key), SecondQueued(key, Waiting), s3, Enter(1, key), Enter(2, key), Cancel(2));
    var s4, s5 := OthersLeave(key, s3);
    RunFive(s3, s4, s5, Enter(1, key), Enter(2, key), Cancel(2), Resume(2), Leave(1));
  }

  lemma RunNext(s: State, events: seq<Event>, s': State, e: Event)
    requires Run(s, events) == Some(s')
    ensures Run(s, events + [e]) == Step(s', e)
  {
    assert (events + [e])[..|events + [e]| - 1] == events;
  }

  // ----- the registry as the code keeps it -----

  class RepoLockRegistry {
    var locks: map<Key, nat>
    var refcounts: map<Key, int>
    var objects: map<nat, Lock>
    var next: nat
    var uses: map<nat, Use>
    ghost var givenUp: map<Key, nat>

    ghost function Now(): State
      reads this
    {
      State(locks, refcounts, objects, next, uses, givenUp)
    }

    constructor ()
      ensures Now() == EMPTY && Inv(Now())
    {
      locks, refcounts, objects, next, uses, givenUp := map[], map[], map[], 0, map[], map[];
      new;
      Reachable([]);
    }

    /** Looks up or makes the lock, counts the use, and takes the lock or queues for it. */
    method Enter(task: nat, key: Key)
      requires Inv(Now()) && task !in uses
      modifies this
      ensures Some(Now()) == Step(old(Now()), Event.Enter(task, key)) && Inv(Now())
    {
      EnterKeeps(Now(), task, key);
      Acquire(task, key);
    }

    method Acquire(task: nat, key: Key)
      requires task !in uses && (key in locks ==> key in refcounts && locks[key] in objects)
      modifies this
      ensures Now() == EnterStep(old(Now()), task, key)
    {
      var lock := Register(key);
      var l := objects[lock];
      if FreeToTake(l) {
        objects := objects[lock := Lock(true, l.waiters)];
        uses := uses[task := Inside(key, lock)];
      } else {
        objects := objects[lock := Lock(l.locked, l.waiters + [Waiter(task, Waiting)])];
        uses := uses[task := Queued(key, lock)];
      }
      assert objects == EnterStep(old(Now()), task, key).objects;
    }

    /** Finds the key's lock or makes one, and counts the new user. */
    method Register(key: Key) returns (lock: nat)
      requires key in locks ==> key in refcounts && locks[key] in objects
      modifies `locks, `refcounts, `objects, `next
      ensures lock == LockFor(old(Now()), key) && locks == old(locks)[key := lock]
      ensures refcounts == old(refcounts)[key := if key in old(locks) then old(refcounts)[key] + 1 else 1]
      ensures objects == if key in old(locks) then old(objects) else old(objects)[lock := Lock(false, [])]
      ensures next == if key in old(locks) then old(next) else old(next) + 1
      ensures lock in objects
    {
      lock := next;
      if key in locks {
        lock := locks[key];
      } else {
        objects := objects[lock := Lock(false, [])];
        locks := locks[key := lock];
        refcounts := refcounts[key := 0];
        next := next + 1;
      }
      refcounts := refcounts[key := refcounts[key] + 1];
    }

    /** A woken task takes the lock; a cancelled one gives up, and its count stays. */
    method Resume(task: nat)
      requires Inv(Now()) && Step(Now(), Event.Resume(task)).Some?
      modifies this
      ensures Some(Now()) == Step(old(Now()), Event.Resume(task)) && Inv(Now())
    {
      StepKeeps(Now(), Event.Resume(task));
      EndWait(task);
    }

    method EndWait(task: nat)
      requires Step(Now(), Event.Resume(task)).Some?
      modifies this
      ensures Some(Now()) == Step(old(Now()), Event.Resume(task))
    {
      var use := uses[task];
      var l := objects[use.lock];
      var status := StatusOf(l.waiters, task).value;
      var rest := Lock(l.locked, Without(l.waiters, task));
      if status == Woken {
        objects := objects[use.lock := Lock(true, rest.waiters)];
        uses := uses[task := Inside(use.key, use.lock)];
      } else {
        objects := objects[use.lock := if rest.locked then rest else WakeFirst(rest)];
        uses := uses - {task};
        givenUp := givenUp[use.key := (if use.key in givenUp then givenUp[use.key] else 0) + 1];
      }
    }

    method Cancel(task: nat)
      requires Inv(Now()) && Step(Now(), Event.Cancel(task)).Some?
      modifies this
      ensures Some(Now()) == Step(old(Now()), Event.Cancel(task)) && Inv(Now())
    {
      StepKeeps(Now(), Event.Cancel(task));
      var l := objects[uses[task].lock];
      objects := objects[uses[task].lock := Lock(l.locked, MarkCancelled(l.waiters, task))];
    }

    /** Releases the lock, takes the use off the count, and drops both entries with the last one. */
    method Leave(task: nat)
      requires Inv(Now()) && task in uses && uses[task].Inside?
      modifies this
      ensures Some(Now()) == Step(old(Now()), Event.Leave(task)) && Inv(Now())
    {
      LeaveEnabled(Now(), task);
      StepKeeps(Now(), Event.Leave(task));
      Release(task);
    }

    method Release(task: nat)
      requires Step(Now(), Event.Leave(task)).Some?
      modifies this
      ensures Some(Now()) == Step(old(Now()), Event.Leave(task))
    {
      var use := uses[task];
      var l := objects[use.lock];
      objects := objects[use.lock := WakeFirst(Lock(false, l.waiters))];
      uses := uses - {task};
      refcounts := refcounts[use.key := refcounts[use.key] - 1];
      if refcounts[use.key] <= 0 {
        locks := locks - {use.key};
        refcounts := refcounts - {use.key};
        assert refcounts == old(refcounts) - {use.key};
      }
    }
  }

  lemma LeaveEnabled(s: State, task: nat)
    requires Inv(s) && task in s.uses && s.uses[task].Inside?
    ensures Step(s, Event.Leave(task)).Some?
  {
    var use := s.uses[task];
    assert LockMatches(s, use.key, use.lock, s.objects[use.lock]);
    assert task in InsideOf(s, use.key, use.lock);
  }
}
