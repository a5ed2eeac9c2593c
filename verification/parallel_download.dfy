/** Downloading a repository: all transfers interleaved, runs broken off anywhere and started again. */
module ParallelDownload {
  import opened Prelude
  import opened Download

  datatype Entry = Entry(path: string, remote: Bytes, lfs: bool)

  /**
   Where a transfer stands: waiting for a worker, before its request, waiting for the answer, with this much of the body
   to come, over.
   */
  datatype Phase = Waiting | Idle | Asked(existing: nat) | Streaming(rest: Bytes) | Done(bytes: nat) | Failed

  /**
   The files, the transfers, the outcomes in the order they came, how many transfers have been given a worker (in tree
   order, as the semaphore is fair) and how many workers are free. Open files are known by their path.
   */
  datatype State = State(files: Files, phases: seq<Phase>, outcomes: seq<nat>, admitted: nat, free: nat)

  datatype Event =
    | Admit // the next waiting transfer gets a free worker
    | Ask(i: nat)
    | Receive(i: nat)
    | Write(i: nat, size: nat)
    | Finish(i: nat)
    | Fail(i: nat)
    | Rerun // the whole run dies or ends, and another begins

  function ReceiveStep(files: Files, e: Entry, existing: nat): (Files, Phase) {
    var part := PartPath(e.path);
    match AnswerTo(e.remote, e.lfs, existing)
    case NotSatisfiable => (files - {part}, Idle)
    case Full(body) => (files[part := []], Streaming(body))
    case Partial(body) => (files[part := Leftover(files, e.path)], Streaming(body))
  }

  /** One step of one transfer: the files and the phase after it. */
  function Advance(files: Files, e: Entry, phase: Phase, event: Event): Option<(Files, Phase)> {
    var part := PartPath(e.path);
    match event
    case Ask(_) => if phase.Idle? then Some((files, Asked(|Leftover(files, e.path)|))) else None
    case Receive(_) => if phase.Asked? then Some(ReceiveStep(files, e, phase.existing)) else None
    case Write(_, size) =>
      if phase.Streaming? && size <= |phase.rest| && part in files then
        Some((files[part := files[part] + phase.rest[..size]], Streaming(phase.rest[size..])))
      else None
    case Finish(_) =>
      if phase.Streaming? && phase.rest == [] && part in files then
        Some(((files - {part})[e.path := files[part]], Done(|files[part]|)))
      else None
    case Fail(_) => if phase.Asked? || phase.Streaming? then Some((files, Failed)) else None
    case Admit => None
    case Rerun => None
  }

  function Slots(workers: int): nat {
    if workers < 1 then 1 else workers
  }

  /** A run about to begin. */
  function Start(entries: seq<Entry>, workers: int, files: Files): State {
    State(files, seq(|entries|, _ => Waiting), [], 0, Slots(workers))
  }

  /** The state after one transfer has moved; a transfer that is over gives its worker back. */
  function Moved(s: State, i: nat, files: Files, phase: Phase): State
    requires i < |s.phases|
  {
    State(files, s.phases[i := phase], if phase.Done? then s.outcomes + [i] else s.outcomes, s.admitted,
          if phase.Done? || phase.Failed? then s.free + 1 else s.free)
  }

  function Step(entries: seq<Entry>, workers: int, s: State, event: Event): Option<State> {
    if event.Rerun? then Some(Start(entries, workers, s.files))
    else if event.Admit? then
      if s.free == 0 || s.admitted >= |s.phases| then None
      else Some(s.(phases := s.phases[s.admitted := Idle], admitted := s.admitted + 1, free := s.free - 1))
    else if event.i >= |entries| || event.i >= |s.phases| then None
    else
      match Advance(s.files, entries[event.i], s.phases[event.i], event)
      case None => None
      case Some((files, phase)) => Some(Moved(s, event.i, files, phase))
  }

  function Run(entries: seq<Entry>, workers: int, s: State, events: seq<Event>): Option<State> {
    if events == [] then Some(s)
    else
      match Run(entries, workers, s, events[..|events| - 1])
      case None => None
      case Some(before) => Step(entries, workers, before, events[|events| - 1])
  }

  // ----- when downloads cannot get in each other's way -----

  /** Targets are distinct, and no target is where another transfer keeps its `.part` file. */
  ghost predicate Apart(entries: seq<Entry>) {
    forall i, j :: 0 <= i < |entries| && 0 <= j < |entries| && i != j ==>
                     entries[i].path != entries[j].path && entries[i].path != PartPath(entries[j].path)
  }

  /** With one worker the earlier transfers are over: only what a later one leaves behind can be in the way. */
  ghost predicate Ordered(entries: seq<Entry>) {
    forall i, j :: 0 <= i < j < |entries| ==>
                     && entries[i].path != PartPath(entries[j].path)
                     && (entries[j].path == PartPath(entries[i].path) ==> entries[j].remote <= entries[i].remote)
                     && (entries[i].path == entries[j].path ==> entries[i].remote == entries[j].remote)
  }

  /** What a caller has to make sure of, given the number of workers. */
  ghost predicate Undisturbed(entries: seq<Entry>, workers: int) {
    if workers <= 1 then Ordered(entries) else Apart(entries)
  }

  ghost predicate EntryOk(files: Files, e: Entry, phase: Phase) {
    var part := PartPath(e.path);
    && Leftover(files, e.path) <= e.remote
    && match phase
       case Asked(existing) => existing == |Leftover(files, e.path)|
       case Streaming(rest) => part in files && files[part] + rest == e.remote
       case Done(bytes) => e.path in files && files[e.path] == e.remote && bytes == |e.remote|
       case _ => true
  }

  ghost predicate OutcomesOk(s: State) {
    && (forall i: nat :: i in s.outcomes <==> i < |s.phases| && s.phases[i].Done?)
    && (forall j, k :: 0 <= j < k < |s.outcomes| ==> s.outcomes[j] != s.outcomes[k])
  }

  ghost predicate Inv(entries: seq<Entry>, s: State) {
    && |s.phases| == |entries|
    && (forall i :: 0 <= i < |entries| ==> EntryOk(s.files, entries[i], s.phases[i]))
    && OutcomesOk(s)
  }

  /** Leftovers of earlier runs, if any, are beginnings of the files. */
  ghost predicate CleanStart(entries: seq<Entry>, files: Files) {
    forall i :: 0 <= i < |entries| ==> Leftover(files, entries[i].path) <= entries[i].remote
  }

  lemma ReceiveKeeps(files: Files, e: Entry, existing: nat)
    requires EntryOk(files, e, Asked(existing))
    ensures var (files', phase) := ReceiveStep(files, e, existing); EntryOk(files', e, phase)
  {
    var (files', phase) := ReceiveStep(files, e, existing);
    var left := Leftover(files, e.path);
    if phase.Streaming? {
      assert files'[PartPath(e.path)] + phase.rest == e.remote by {
        assert left <= e.remote && existing == |left|;
        assert existing < |e.remote| ==> left + e.remote[existing..] == e.remote;
        assert [] + e.remote == e.remote;
      }
    }
  }

  lemma AdvanceKeeps(files: Files, e: Entry, phase: Phase, event: Event)
    requires EntryOk(files, e, phase) && Advance(files, e, phase, event).Some?
    ensures var (files', phase') := Advance(files, e, phase, event).value; EntryOk(files', e, phase')
  {
    if event.Receive? {
      ReceiveKeeps(files, e, phase.existing);
    } else if event.Write? {
      WriteKeeps(files[PartPath(e.path)], phase.rest, event.size, e.remote);
    }
  }

  lemma WriteKeeps(part: Bytes, rest: Bytes, size: nat, remote: Bytes)
    requires part + rest == remote && size <= |rest|
    ensures (part + rest[..size]) + rest[size..] == remote && part + rest[..size] <= remote
  {
    assert rest[..size] + rest[size..] == rest;
    assert part + rest[..size] == remote[..|part| + size];
  }

  /** A step of one transfer touches its own two paths only. */
  lemma AdvanceIsLocal(files: Files, e: Entry, phase: Phase, event: Event, path: string)
    requires Advance(files, e, phase, event).Some? && path != e.path && path != PartPath(e.path)
    ensures var files' := Advance(files, e, phase, event).value.0;
            (path in files' <==> path in files) && (path in files ==> files'[path] == files[path])
  {
  }

  lemma OthersKeep(files: Files, files': Files, e: Entry, phase: Phase)
    requires EntryOk(files, e, phase)
    requires forall p :: p == e.path || p == PartPath(e.path) ==>
                           (p in files' <==> p in files) && (p in files ==> files'[p] == files[p])
    ensures EntryOk(files', e, phase)
  {
    assert e.path in files' <==> e.path in files;
    assert PartPath(e.path) in files' <==> PartPath(e.path) in files;
  }

  lemma PartPathsApart(path1: string, path2: string)
    requires path1 != path2
    ensures PartPath(path1) != PartPath(path2)
  {
    if |path1| == |path2| {
      assert PartPath(path1)[..|path1|] == path1 && PartPath(path2)[..|path2|] == path2;
    }
  }

  lemma OutcomesKeep(entries: seq<Entry>, workers: int, s: State, event: Event)
    requires Step(entries, workers, s, event).Some? && OutcomesOk(s) && |s.phases| == |entries|
    requires forall i :: s.admitted <= i < |s.phases| ==> s.phases[i].Waiting?
    ensures OutcomesOk(Step(entries, workers, s, event).value)
  {
    var s' := Step(entries, workers, s, event).value;
    if !event.Rerun? {
      var i := if event.Admit? then s.admitted else event.i;
      assert !s.phases[i].Done?;
      assert i !in s.outcomes;
      forall k: nat ensures k in s'.outcomes <==> k < |s'.phases| && s'.phases[k].Done? {
        assert k in s.outcomes <==> k < |s.phases| && s.phases[k].Done?;
      }
    }
  }

  /** Those without a worker are the last ones. */
  ghost predicate Queued(s: State) {
    s.admitted <= |s.phases| && forall i :: 0 <= i < |s.phases| ==> (s.phases[i].Waiting? <==> i >= s.admitted)
  }

  /** What holds however the transfers get in each other's way. */
  ghost predicate Shape(entries: seq<Entry>, s: State) {
    |s.phases| == |entries| && Queued(s) && OutcomesOk(s)
  }

  lemma ShapeKeeps(entries: seq<Entry>, workers: int, s: State, event: Event)
    requires Shape(entries, s) && Step(entries, workers, s, event).Some?
    ensures Shape(entries, Step(entries, workers, s, event).value)
  {
    OutcomesKeep(entries, workers, s, event);
  }

  lemma {:induction false} RunsAreShaped(entries: seq<Entry>, workers: int, files: Files, events: seq<Event>)
    requires Run(entries, workers, Start(entries, workers, files), events).Some?
    ensures Shape(entries, Run(entries, workers, Start(entries, workers, files), events).value)
  {
    if events != [] {
      var init, last := events[..|events| - 1], events[|events| - 1];
      RunsAreShaped(entries, workers, files, init);
      ShapeKeeps(entries, workers, Run(entries, workers, Start(entries, workers, files), init).value, last);
    }
  }

  // ----- several workers -----

  lemma ApartKeeps(entries: seq<Entry>, workers: int, s: State, event: Event)
    requires Apart(entries) && Inv(entries, s) && Shape(entries, s) && Step(entries, workers, s, event).Some?
    ensures Inv(entries, Step(entries, workers, s, event).value)
  {
    var s' := Step(entries, workers, s, event).value;
    ShapeKeeps(entries, workers, s, event);
    if !event.Rerun? && !event.Admit? {
      var e, phase := entries[event.i], s.phases[event.i];
      AdvanceKeeps(s.files, e, phase, event);
      forall j | 0 <= j < |entries| && j != event.i ensures EntryOk(s'.files, entries[j], s'.phases[j]) {
        var other := entries[j];
        PartPathsApart(other.path, e.path);
        AdvanceIsLocal(s.files, e, phase, event, other.path);
        AdvanceIsLocal(s.files, e, phase, event, PartPath(other.path));
        OthersKeep(s.files, s'.files, other, s.phases[j]);
      }
    }
  }

  // ----- one worker -----

  predicate Over(phase: Phase) {
    phase.Done? || phase.Failed?
  }

  function Upto(n: nat): (r: seq<nat>)
    ensures |r| == n && forall i :: 0 <= i < n ==> r[i] == i
  {
    if n == 0 then [] else Upto(n - 1) + [n - 1]
  }

  /** With one worker, all transfers before the last admitted one are over, and they have reported in tree order. */
  ghost predicate OneAtATime(s: State) {
    && s.admitted <= |s.phases| && s.free <= 1 && (s.admitted == 0 ==> s.free == 1)
    && (forall i :: 0 <= i < s.admitted - 1 ==> Over(s.phases[i]))
    && (s.admitted > 0 ==> (Over(s.phases[s.admitted - 1]) <==> s.free == 1))
    && (forall i :: s.admitted <= i < |s.phases| ==> s.phases[i].Waiting?)
    && ((forall i :: 0 <= i < s.admitted ==> !s.phases[i].Failed?) ==>
          s.outcomes == Upto(if s.free == 1 then s.admitted else s.admitted - 1))
  }

  lemma OneAtATimeMoved(s: State, i: nat, files: Files, phase: Phase)
    requires OneAtATime(s) && s.admitted > 0 && i == s.admitted - 1 && !Over(s.phases[i]) && !phase.Waiting?
    ensures OneAtATime(Moved(s, i, files, phase))
  {
    var s' := Moved(s, i, files, phase);
    if forall j :: 0 <= j < s'.admitted ==> !s'.phases[j].Failed? {
      forall j | 0 <= j < s.admitted ensures !s.phases[j].Failed? {
        assert j != i ==> s'.phases[j] == s.phases[j];
      }
    }
  }

  lemma OneAtATimeAdmits(s: State)
    requires OneAtATime(s) && s.free > 0 && s.admitted < |s.phases|
    ensures OneAtATime(s.(phases := s.phases[s.admitted := Idle], admitted := s.admitted + 1, free := s.free - 1))
  {
    var s' := s.(phases := s.phases[s.admitted := Idle], admitted := s.admitted + 1, free := s.free - 1);
    if forall j :: 0 <= j < s'.admitted ==> !s'.phases[j].Failed? {
      forall j | 0 <= j < s.admitted ensures !s.phases[j].Failed? {
        assert s'.phases[j] == s.phases[j];
      }
    }
  }

  lemma OneAtATimeKeeps(entries: seq<Entry>, workers: int, s: State, event: Event)
    requires workers <= 1 && OneAtATime(s) && |s.phases| == |entries| && Step(entries, workers, s, event).Some?
    ensures OneAtATime(Step(entries, workers, s, event).value)
  {
    if event.Admit? {
      OneAtATimeAdmits(s);
    } else if !event.Rerun? {
      var (files, phase) := Advance(s.files, entries[event.i], s.phases[event.i], event).value;
      OnlyTheLastMoves(s.files, entries[event.i], s, event);
      OneAtATimeMoved(s, event.i, files, phase);
    }
  }

  /** Until it finishes, a transfer leaves its target alone; then it moves its `.part` file there. */
  lemma TargetChangesAtTheEnd(files: Files, e: Entry, phase: Phase, event: Event)
    requires Advance(files, e, phase, event).Some?
    ensures var (files', phase') := Advance(files, e, phase, event).value;
            !phase'.Done? ==>
              (e.path in files' <==> e.path in files) && (e.path in files ==> files'[e.path] == files[e.path])
  {
  }

  /** A transfer that is over stays right while a later one moves. */
  lemma EarlierKeeps(files: Files, e: Entry, phase: Phase, event: Event, earlier: Entry, over: Phase)
    requires EntryOk(files, e, phase) && EntryOk(files, earlier, over) && Over(over)
    requires Advance(files, e, phase, event).Some?
    requires earlier.path != PartPath(e.path)
    requires e.path == PartPath(earlier.path) ==> e.remote <= earlier.remote
    requires earlier.path == e.path ==> earlier.remote == e.remote
    ensures EntryOk(Advance(files, e, phase, event).value.0, earlier, over)
  {
    var (files', phase') := Advance(files, e, phase, event).value;
    AdvanceKeeps(files, e, phase, event);
    TargetChangesAtTheEnd(files, e, phase, event);
    if earlier.path != e.path {
      PartPathsApart(earlier.path, e.path);
      AdvanceIsLocal(files, e, phase, event, earlier.path);
      if PartPath(earlier.path) != e.path {
        AdvanceIsLocal(files, e, phase, event, PartPath(earlier.path));
      }
    }
  }

  /** A transfer that still waits keeps a usable leftover while an earlier one moves. */
  lemma LaterKeeps(files: Files, e: Entry, phase: Phase, event: Event, later: Entry)
    requires EntryOk(files, e, phase) && EntryOk(files, later, Waiting)
    requires Advance(files, e, phase, event).Some?
    requires e.path != PartPath(later.path) && (later.path == e.path ==> later.remote == e.remote)
    ensures EntryOk(Advance(files, e, phase, event).value.0, later, Waiting)
  {
    AdvanceKeeps(files, e, phase, event);
    if later.path != e.path {
      PartPathsApart(later.path, e.path);
      AdvanceIsLocal(files, e, phase, event, PartPath(later.path));
    }
  }

  lemma OnlyTheLastMoves(files: Files, e: Entry, s: State, event: Event)
    requires OneAtATime(s) && !event.Rerun? && !event.Admit? && event.i < |s.phases|
    requires Advance(files, e, s.phases[event.i], event).Some?
    ensures event.i == s.admitted - 1
  {
  }

  lemma OrderedOther(entries: seq<Entry>, s: State, event: Event, files': Files, j: nat)
    requires Ordered(entries) && OneAtATime(s) && |s.phases| == |entries| && !event.Rerun? && !event.Admit?
    requires event.i < |entries| && j < |entries| && j != event.i && event.i == s.admitted - 1
    requires EntryOk(s.files, entries[j], s.phases[j]) && EntryOk(s.files, entries[event.i], s.phases[event.i])
    requires Advance(s.files, entries[event.i], s.phases[event.i], event).Some?
    requires files' == Advance(s.files, entries[event.i], s.phases[event.i], event).value.0
    ensures EntryOk(files', entries[j], s.phases[j])
  {
    if j < event.i {
      EarlierKeeps(s.files, entries[event.i], s.phases[event.i], event, entries[j], s.phases[j]);
    } else {
      LaterKeeps(s.files, entries[event.i], s.phases[event.i], event, entries[j]);
    }
  }

  lemma OrderedKeeps(entries: seq<Entry>, workers: int, s: State, event: Event)
    requires Ordered(entries) && workers <= 1 && OneAtATime(s)
    requires Inv(entries, s) && Shape(entries, s) && Step(entries, workers, s, event).Some?
    ensures Inv(entries, Step(entries, workers, s, event).value)
  {
    ShapeKeeps(entries, workers, s, event);
    if !event.Rerun? && !event.Admit? {
      var s' := Step(entries, workers, s, event).value;
      var e, phase := entries[event.i], s.phases[event.i];
      AdvanceKeeps(s.files, e, phase, event);
      OnlyTheLastMoves(s.files, e, s, event);
      forall j | 0 <= j < |entries| && j != event.i ensures EntryOk(s'.files, entries[j], s'.phases[j]) {
        OrderedOther(entries, s, event, s'.files, j);
      }
    }
  }

  lemma {:induction false} OneWorkerIsOrdered(entries: seq<Entry>, workers: int, files: Files, events: seq<Event>)
    requires workers <= 1 && Run(entries, workers, Start(entries, workers, files), events).Some?
    ensures OneAtATime(Run(entries, workers, Start(entries, workers, files), events).value)
  {
    if events != [] {
      var init, last := events[..|events| - 1], events[|events| - 1];
      OneWorkerIsOrdered(entries, workers, files, init);
      RunsAreShaped(entries, workers, files, init);
      OneAtATimeKeeps(entries, workers, Run(entries, workers, Start(entries, workers, files), init).value, last);
    }
  }

  /**
   Any interleaving of the transfers the workers allow, with any of them failing, the whole run dying at any point and
   being started again any number of times: every `.part` file stays a beginning of its file, every finished transfer
   has put the whole file at its target and reports its length, and the outcomes are the finished transfers, each once.
   */
  lemma {:induction false} DownloadsAreWhole(entries: seq<Entry>, workers: int, files: Files, events: seq<Event>)
    requires Undisturbed(entries, workers) && CleanStart(entries, files)
    requires Run(entries, workers, Start(entries, workers, files), events).Some?
    ensures Inv(entries, Run(entries, workers, Start(entries, workers, files), events).value)
  {
    if events != [] {
      var init, last := events[..|events| - 1], events[|events| - 1];
      DownloadsAreWhole(entries, workers, files, init);
      RunsAreShaped(entries, workers, files, init);
      var s := Run(entries, workers, Start(entries, workers, files), init).value;
      if workers <= 1 {
        OneWorkerIsOrdered(entries, workers, files, init);
        OrderedKeeps(entries, workers, s, last);
      } else {
        ApartKeeps(entries, workers, s, last);
      }
    }
  }

  /** Once every transfer is finished, the targets are right and every outcome is there once, in whatever order. */
  lemma AllDone(entries: seq<Entry>, s: State)
    requires Inv(entries, s) && forall i :: 0 <= i < |entries| ==> s.phases[i].Done?
    ensures forall i :: 0 <= i < |entries| ==>
                          entries[i].path in s.files && s.files[entries[i].path] == entries[i].remote
                          && s.phases[i].bytes == |entries[i].remote|
    ensures multiset(s.outcomes) == multiset(seq(|entries|, i => i))
  {
    forall i | 0 <= i < |entries|
      ensures entries[i].path in s.files && s.files[entries[i].path] == entries[i].remote
              && s.phases[i].bytes == |entries[i].remote|
    {
      assert EntryOk(s.files, entries[i], s.phases[i]);
    }
    var all: seq<nat> := seq(|entries|, i => i);
    forall i: nat ensures multiset(s.outcomes)[i] == multiset(all)[i] {
      OnceEach(s.outcomes, i);
      OnceEach(all, i);
      assert i in all <==> 0 <= i < |entries| by {
        if 0 <= i < |entries| {
          assert all[i] == i;
        }
      }
    }
  }

  lemma {:induction false} OnceEach(s: seq<nat>, x: nat)
    requires forall j, k :: 0 <= j < k < |s| ==> s[j] != s[k]
    ensures multiset(s)[x] == if x in s then 1 else 0
  {
    if s != [] {
      var init, last := s[..|s| - 1], s[|s| - 1];
      OnceEach(init, x);
      assert s == init + [last];
      assert last !in init;
    }
  }

  // ----- particular runs -----

  lemma {:induction false} RunAppend(entries: seq<Entry>, workers: int, s: State, events: seq<Event>, more: seq<Event>)
    requires Run(entries, workers, s, events).Some?
    ensures Run(entries, workers, s, events + more)
            == Run(entries, workers, Run(entries, workers, s, events).value, more)
  {
    if more == [] {
      assert events + more == events;
    } else {
      RunAppend(entries, workers, s, events, more[..|more| - 1]);
      assert (events + more)[..|events + more| - 1] == events + more[..|more| - 1];
    }
  }

  lemma OneStep(entries: seq<Entry>, workers: int, s: State, e: Event)
    ensures Run(entries, workers, s, [e]) == Step(entries, workers, s, e)
  {
    assert [e][..0] == [];
    assert Run(entries, workers, s, [e][..0]) == Some(s);
  }

  lemma TwoSteps(entries: seq<Entry>, workers: int, s: State, e1: Event, s1: State, e2: Event, s2: State)
    requires Step(entries, workers, s, e1) == Some(s1) && Step(entries, workers, s1, e2) == Some(s2)
    ensures Run(entries, workers, s, [e1, e2]) == Some(s2)
  {
    OneStep(entries, workers, s, e1);
    OneStep(entries, workers, s1, e2);
    RunAppend(entries, workers, s, [e1], [e2]);
    assert [e1] + [e2] == [e1, e2];
  }

  /** The server refuses the range of a leftover that is not shorter than the file. */
  predicate Refused(files: Files, e: Entry) {
    !e.lfs && |Leftover(files, e.path)| >= |e.remote| && Leftover(files, e.path) != []
  }

  /** From its turn to the open stream: one request, or two when the first range is refused. */
  lemma Opens(entries: seq<Entry>, workers: int, s: State, i: nat) returns (events: seq<Event>, s': State)
    requires i < |entries| == |s.phases| && s.phases[i].Idle?
    ensures Run(entries, workers, s, events) == Some(s')
    ensures var e := entries[i];
            var left := if Refused(s.files, e) then [] else Leftover(s.files, e.path);
            var start := if Resumes(left, e.remote, e.lfs) then left else [];
            s' == s.(files := s.files[PartPath(e.path) := start],
                     phases := s.phases[i := Streaming(e.remote[|start|..])])
  {
    var e := entries[i];
    if Refused(s.files, e) {
      var part, left := PartPath(e.path), Leftover(s.files, e.path);
      var asked := s.(phases := s.phases[i := Asked(|left|)]);
      var again := s.(files := s.files - {part});
      assert asked.phases[i := Idle] == s.phases;
      TwoSteps(entries, workers, s, Ask(i), asked, Receive(i), again);
      var more;
      more, s' := OpensAtOnce(entries, workers, again, i);
      RunAppend(entries, workers, s, [Ask(i), Receive(i)], more);
      events := [Ask(i), Receive(i)] + more;
      assert (s.files - {part})[part := []] == s.files[part := []];
    } else {
      events, s' := OpensAtOnce(entries, workers, s, i);
    }
  }

  lemma OpensAtOnce(entries: seq<Entry>, workers: int, s: State, i: nat) returns (events: seq<Event>, s': State)
    requires i < |entries| == |s.phases| && s.phases[i].Idle? && !Refused(s.files, entries[i])
    ensures Run(entries, workers, s, events) == Some(s')
    ensures var e := entries[i];
            var left := Leftover(s.files, e.path);
            var start := if Resumes(left, e.remote, e.lfs) then left else [];
            s' == s.(files := s.files[PartPath(e.path) := start],
                     phases := s.phases[i := Streaming(e.remote[|start|..])])
  {
    var e := entries[i];
    var part, left := PartPath(e.path), Leftover(s.files, e.path);
    var start := if Resumes(left, e.remote, e.lfs) then left else [];
    var body := e.remote[|start|..];
    assert e.remote[0..] == e.remote;
    var asked := s.(phases := s.phases[i := Asked(|left|)]);
    s' := s.(files := s.files[part := start], phases := s.phases[i := Streaming(body)]);
    assert asked.phases[i := Streaming(body)] == s'.phases;
    assert ReceiveStep(s.files, e, |left|) == (s'.files, Streaming(body));
    TwoSteps(entries, workers, s, Ask(i), asked, Receive(i), s');
    events := [Ask(i), Receive(i)];
  }

  /** From the open stream to the end, in one write. */
  lemma Flows(entries: seq<Entry>, workers: int, s: State, i: nat) returns (events: seq<Event>, s': State)
    requires i < |entries| == |s.phases| && s.phases[i].Streaming? && PartPath(entries[i].path) in s.files
    ensures Run(entries, workers, s, events) == Some(s')
    ensures var e := entries[i];
            var result := s.files[PartPath(e.path)] + s.phases[i].rest;
            s' == State((s.files - {PartPath(e.path)})[e.path := result], s.phases[i := Done(|result|)],
                        s.outcomes + [i], s.admitted, s.free + 1)
  {
    var e := entries[i];
    var part, body := PartPath(e.path), s.phases[i].rest;
    var result := s.files[part] + body;
    assert body[..|body|] == body && body[|body|..] == [];
    var written := s.(files := s.files[part := result], phases := s.phases[i := Streaming([])]);
    assert written.phases[i := Done(|result|)] == s.phases[i := Done(|result|)];
    assert written.files - {part} == s.files - {part};
    s' := Moved(written, i, (s.files - {part})[e.path := result], Done(|result|));
    TwoSteps(entries, workers, s, Write(i, |body|), written, Finish(i), s');
    events := [Write(i, |body|), Finish(i)];
  }

  /** Left alone, a transfer does what the sequential code promises, the restart after a refused range included. */
  lemma AloneCompletes(entries: seq<Entry>, workers: int, s: State, i: nat) returns (events: seq<Event>, s': State)
    requires i < |entries| == |s.phases| && s.phases[i].Idle?
    ensures Run(entries, workers, s, events) == Some(s')
    ensures var e := entries[i];
            var result := Completed(Leftover(s.files, e.path), e.remote, e.lfs);
            s' == State((s.files - {PartPath(e.path)})[e.path := result], s.phases[i := Done(|result|)],
                        s.outcomes + [i], s.admitted, s.free + 1)
  {
    var e := entries[i];
    var left, part := Leftover(s.files, e.path), PartPath(e.path);
    var first, begun := Opens(entries, workers, s, i);
    var second;
    second, s' := Flows(entries, workers, begun, i);
    RunAppend(entries, workers, s, first, second);
    events := first + second;
    var start := if Resumes(left, e.remote, e.lfs) then left else [];
    assert e.remote[0..] == e.remote;
    var result := Completed(left, e.remote, e.lfs);
    assert start + e.remote[|start|..] == result;
    assert begun.files - {part} == s.files - {part};
    assert begun.phases[i := Done(|result|)] == s.phases[i := Done(|result|)];
  }

  function Range(lo: nat, hi: nat): (r: seq<nat>)
    requires lo <= hi
    ensures |r| == hi - lo && forall k :: 0 <= k < hi - lo ==> r[k] == lo + k
  {
    if lo == hi then [] else Range(lo, hi - 1) + [hi - 1]
  }

  /** The transfers from lo up to hi have been done since, one after the other; the others are where they were. */
  ghost predicate Advanced(entries: seq<Entry>, s: State, s': State, hi: nat) {
    && s.admitted <= hi <= |entries| == |s.phases| == |s'.phases|
    && s'.admitted == hi && s'.free == s.free && s'.outcomes == s.outcomes + Range(s.admitted, hi)
    && (forall k :: 0 <= k < s.admitted ==> s'.phases[k] == s.phases[k])
    && (forall k :: s.admitted <= k < hi ==> s'.phases[k].Done?)
    && (forall k :: hi <= k < |entries| ==> s'.phases[k].Waiting?)
    && (hi > s.admitted ==> PartPath(entries[hi - 1].path) !in s'.files)
  }

  lemma CompleteNext(entries: seq<Entry>, workers: int, s: State, middle: State, hi: nat)
    returns (events: seq<Event>, s': State)
    requires s.admitted < hi <= |entries| && s.free > 0 && Advanced(entries, s, middle, hi - 1)
    ensures Run(entries, workers, middle, events) == Some(s') && Advanced(entries, s, s', hi)
  {
    var admitted := AdmitNext(entries, workers, middle);
    var rest;
    rest, s' := AloneCompletes(entries, workers, admitted, hi - 1);
    RunAppend(entries, workers, middle, [Admit], rest);
    events := [Admit] + rest;
    Associative(s.outcomes, Range(s.admitted, hi - 1), [hi - 1]);
  }

  lemma {:induction false} CompleteUpTo(entries: seq<Entry>, workers: int, s: State, hi: nat)
    returns (events: seq<Event>, s': State)
    requires |s.phases| == |entries| && s.admitted <= hi <= |entries| && s.free > 0
    requires forall k :: s.admitted <= k < |entries| ==> s.phases[k].Waiting?
    ensures Run(entries, workers, s, events) == Some(s') && Advanced(entries, s, s', hi)
    decreases hi
  {
    if hi == s.admitted {
      events, s' := [], s;
      assert s.outcomes + Range(hi, hi) == s.outcomes;
    } else {
      var init, middle := CompleteUpTo(entries, workers, s, hi - 1);
      var last;
      last, s' := CompleteNext(entries, workers, s, middle, hi);
      RunAppend(entries, workers, s, init, last);
      events := init + last;
    }
  }

  lemma AdmitNext(entries: seq<Entry>, workers: int, s: State) returns (s': State)
    requires s.admitted < |s.phases| && s.free > 0
    ensures Run(entries, workers, s, [Admit]) == Some(s')
    ensures s' == s.(phases := s.phases[s.admitted := Idle], admitted := s.admitted + 1, free := s.free - 1)
  {
    OneStep(entries, workers, s, Admit);
    s' := Step(entries, workers, s, Admit).value;
  }

  // ----- exactly when downloads are always right -----

  ghost predicate AlwaysWhole(entries: seq<Entry>, workers: int) {
    forall events :: var r := Run(entries, workers, Start(entries, workers, map[]), events);
                     r.Some? ==> Inv(entries, r.value)
  }

  lemma WholeAfter(entries: seq<Entry>, workers: int, events: seq<Event>, s: State, i: nat)
    requires AlwaysWhole(entries, workers) && i < |entries|
    requires Run(entries, workers, Start(entries, workers, map[]), events) == Some(s)
    ensures |s.phases| == |entries| && EntryOk(s.files, entries[i], s.phases[i])
  {
    var r := Run(entries, workers, Start(entries, workers, map[]), events);
    assert Inv(entries, r.value);
  }

  /** All transfers up to j done in turn, j being the last one to have moved. */
  lemma DoneUpTo(entries: seq<Entry>, workers: int, j: nat) returns (events: seq<Event>, s: State)
    requires j < |entries|
    ensures Run(entries, workers, Start(entries, workers, map[]), events) == Some(s)
    ensures |s.phases| == |entries| && PartPath(entries[j].path) !in s.files
    ensures forall k :: 0 <= k <= j ==> s.phases[k].Done?
  {
    events, s := CompleteUpTo(entries, workers, Start(entries, workers, map[]), j + 1);
  }

  /** What one worker needs: the first and the last of two transfers are both done, and both must be right. */
  lemma OrderIsNeeded(entries: seq<Entry>, workers: int, i: nat, j: nat)
    requires AlwaysWhole(entries, workers) && i < j < |entries|
    ensures entries[i].path != PartPath(entries[j].path)
    ensures entries[j].path == PartPath(entries[i].path) ==> entries[j].remote <= entries[i].remote
    ensures entries[i].path == entries[j].path ==> entries[i].remote == entries[j].remote
  {
    var events, s := DoneUpTo(entries, workers, j);
    WholeAfter(entries, workers, events, s, i);
    WholeAfter(entries, workers, events, s, j);
  }

  lemma RunFour(entries: seq<Entry>, workers: int, s: State, a: seq<Event>, s1: State, b: seq<Event>, s2: State,
                c: seq<Event>, s3: State, d: seq<Event>, s4: State)
    requires Run(entries, workers, s, a) == Some(s1) && Run(entries, workers, s1, b) == Some(s2)
    requires Run(entries, workers, s2, c) == Some(s3) && Run(entries, workers, s3, d) == Some(s4)
    ensures Run(entries, workers, s, a + b + c + d) == Some(s4)
  {
    RunAppend(entries, workers, s, a, b);
    RunAppend(entries, workers, s, a + b, c);
    RunAppend(entries, workers, s, a + b + c, d);
  }

  /** The earlier transfer sits on its worker while the later one is done, and then has its `.part` file to itself. */
  lemma EarlierComesLast(entries: seq<Entry>, workers: int, i: nat, j: nat) returns (events: seq<Event>, s: State)
    requires workers >= 2 && i < j < |entries|
    ensures Run(entries, workers, Start(entries, workers, map[]), events) == Some(s)
    ensures |s.phases| == |entries| && s.phases[j].Done? && PartPath(entries[i].path) !in s.files
  {
    var start := Start(entries, workers, map[]);
    var events1, s1 := CompleteUpTo(entries, workers, start, i);
    var s2 := AdmitNext(entries, workers, s1);
    var events3, s3 := CompleteUpTo(entries, workers, s2, j + 1);
    var events4;
    events4, s := AloneCompletes(entries, workers, s3, i);
    RunFour(entries, workers, start, events1, s1, [Admit], s2, events3, s3, events4, s);
    events := events1 + [Admit] + events3 + events4;
  }

  /** The later transfer is done while the earlier one streams. */
  lemma EarlierStreams(entries: seq<Entry>, workers: int, i: nat, j: nat) returns (events: seq<Event>, s: State)
    requires workers >= 2 && i < j < |entries|
    ensures Run(entries, workers, Start(entries, workers, map[]), events) == Some(s)
    ensures |s.phases| == |entries| && s.phases[i].Streaming? && PartPath(entries[j].path) !in s.files
  {
    var first, streaming := ReachesStream(entries, workers, i);
    events, s := LaterFinish(entries, workers, Start(entries, workers, map[]), first, streaming, i, j);
  }

  lemma LaterFinish(entries: seq<Entry>, workers: int, start: State, first: seq<Event>, streaming: State, i: nat,
                    j: nat) returns (events: seq<Event>, s: State)
    requires Run(entries, workers, start, first) == Some(streaming) && i < j < |entries|
    requires |streaming.phases| == |entries| && streaming.admitted == i + 1 && streaming.free > 0
    requires streaming.phases[i].Streaming? && forall k :: i < k < |entries| ==> streaming.phases[k].Waiting?
    ensures Run(entries, workers, start, events) == Some(s)
    ensures |s.phases| == |entries| && s.phases[i].Streaming? && PartPath(entries[j].path) !in s.files
  {
    var rest;
    rest, s := CompleteUpTo(entries, workers, streaming, j + 1);
    RunAppend(entries, workers, start, first, rest);
    events := first + rest;
  }

  lemma ReachesStream(entries: seq<Entry>, workers: int, i: nat) returns (events: seq<Event>, s: State)
    requires workers >= 2 && i < |entries|
    ensures Run(entries, workers, Start(entries, workers, map[]), events) == Some(s)
    ensures |s.phases| == |entries| && s.admitted == i + 1 && s.free > 0 && s.phases[i].Streaming?
    ensures forall k :: i < k < |entries| ==> s.phases[k].Waiting?
  {
    var start := Start(entries, workers, map[]);
    var events1, s1 := CompleteUpTo(entries, workers, start, i);
    var s2 := AdmitNext(entries, workers, s1);
    var events3;
    events3, s := Opens(entries, workers, s2, i);
    RunAppend(entries, workers, start, events1, [Admit]);
    RunAppend(entries, workers, start, events1 + [Admit], events3);
    events := events1 + [Admit] + events3;
  }

  /** What several workers need: neither the later target nor a shared `.part` file can be taken away. */
  lemma DistanceIsNeeded(entries: seq<Entry>, workers: int, i: nat, j: nat)
    requires AlwaysWhole(entries, workers) && workers >= 2 && i < j < |entries|
    ensures entries[j].path != PartPath(entries[i].path) && entries[i].path != entries[j].path
  {
    var events1, s1 := EarlierComesLast(entries, workers, i, j);
    WholeAfter(entries, workers, events1, s1, j);
    var events2, s2 := EarlierStreams(entries, workers, i, j);
    WholeAfter(entries, workers, events2, s2, i);
  }

  /**
   Downloads into an empty directory are right in every run if and only if the files do not get in each other's way:
   with several workers no target may be another one or another one's `.part` file; with one worker it is enough that
   no earlier target is a later one's `.part` file, and that what a later file leaves in an earlier one's place fits.
   */
  lemma AlwaysWholeIff(entries: seq<Entry>, workers: int)
    ensures AlwaysWhole(entries, workers) <==> Undisturbed(entries, workers)
  {
    if Undisturbed(entries, workers) {
      forall events | Run(entries, workers, Start(entries, workers, map[]), events).Some?
        ensures Inv(entries, Run(entries, workers, Start(entries, workers, map[]), events).value)
      {
        DownloadsAreWhole(entries, workers, map[], events);
      }
    }
    if AlwaysWhole(entries, workers) {
      forall i: nat, j: nat | i < j < |entries|
        ensures entries[i].path != PartPath(entries[j].path)
        ensures entries[j].path == PartPath(entries[i].path) ==> entries[j].remote <= entries[i].remote
        ensures entries[i].path == entries[j].path ==> entries[i].remote == entries[j].remote
        ensures workers >= 2 ==> entries[j].path != PartPath(entries[i].path) && entries[i].path != entries[j].path
      {
        OrderIsNeeded(entries, workers, i, j);
        if workers >= 2 {
          DistanceIsNeeded(entries, workers, i, j);
        }
      }
    }
  }

  lemma BothFinish(path: string, inner: Bytes, outer: Bytes, entries: seq<Entry>, workers: int)
    returns (events: seq<Event>, r: State)
    requires entries == [Entry(PartPath(path), inner, false), Entry(path, outer, false)]
    ensures Run(entries, workers, Start(entries, workers, map[]), events) == Some(r)
    ensures var result := Completed(inner, outer, false);
            && r.phases == [Done(|inner|), Done(|result|)]
            && PartPath(path) !in r.files && path in r.files && r.files[path] == result
  {
    var s := Start(entries, workers, map[]);
    var s1 := AdmitNext(entries, workers, s);
    var events1, s2 := AloneCompletes(entries, workers, s1, 0);
    var s3 := AdmitNext(entries, workers, s2);
    assert Leftover(s3.files, path) == inner;
    var events2;
    events2, r := AloneCompletes(entries, workers, s3, 1);
    RunFour(entries, workers, s, [Admit], s1, events1, s2, [Admit], s3, events2, r);
    events := [Admit] + events1 + [Admit] + events2;
  }

  /**
   Two files of which one is named like the other's `.part` file: the first download is taken for a leftover of the
   second, moved over it, and both count as done. The result is right only if one content begins with the other.
   */
  lemma PartNameClobbers(path: string, inner: Bytes, outer: Bytes, workers: int)
    requires 0 < |inner| < |outer|
    ensures var entries := [Entry(PartPath(path), inner, false), Entry(path, outer, false)];
            exists events :: var r := Run(entries, workers, Start(entries, workers, map[]), events);
                             && r.Some? && r.value.phases == [Done(|inner|), Done(|outer|)]
                             && PartPath(path) !in r.value.files
                             && path in r.value.files && (r.value.files[path] == outer <==> inner <= outer)
  {
    var entries := [Entry(PartPath(path), inner, false), Entry(path, outer, false)];
    var events, r := BothFinish(path, inner, outer, entries, workers);
    CompletedIff(inner, outer, false);
  }

  // ----- the order of the outcomes -----

  ghost predicate AllFinished(s: State) {
    forall i :: 0 <= i < |s.phases| ==> s.phases[i].Done?
  }

  /** Every run that completes reports the files in the order of the tree. */
  ghost predicate AlwaysInTreeOrder(entries: seq<Entry>, workers: int, files: Files) {
    forall events :: var r := Run(entries, workers, Start(entries, workers, files), events);
                     r.Some? && AllFinished(r.value) ==> r.value.outcomes == Upto(|entries|)
  }

  /** With two workers the first file can come last. */
  lemma OutcomeOrderIsFree(entries: seq<Entry>, workers: int, files: Files)
    requires workers >= 2 && |entries| >= 2
    ensures exists events :: var r := Run(entries, workers, Start(entries, workers, files), events);
                             r.Some? && AllFinished(r.value) && r.value.outcomes == Range(1, |entries|) + [0]
  {
    var s := Start(entries, workers, files);
    var events1, s2 := OthersFinish(entries, workers, files);
    var events2, s3 := AloneCompletes(entries, workers, s2, 0);
    RunAppend(entries, workers, s, events1, events2);
    assert Run(entries, workers, s, events1 + events2) == Some(s3);
  }

  /** The first transfer has its worker and does nothing while all others come and go. */
  lemma OthersFinish(entries: seq<Entry>, workers: int, files: Files) returns (events: seq<Event>, s: State)
    requires workers >= 2 && |entries| >= 2
    ensures Run(entries, workers, Start(entries, workers, files), events) == Some(s)
    ensures |s.phases| == |entries| && s.phases[0] == Idle && s.outcomes == Range(1, |entries|)
    ensures forall k :: 0 < k < |entries| ==> s.phases[k].Done?
  {
    var start := Start(entries, workers, files);
    var s1 := AdmitNext(entries, workers, start);
    var rest;
    rest, s := CompleteUpTo(entries, workers, s1, |entries|);
    RunAppend(entries, workers, start, [Admit], rest);
    events := [Admit] + rest;
    assert s.outcomes == [] + Range(1, |entries|);
  }

  lemma FewFilesKeepOrder(s: State)
    requires OutcomesOk(s) && |s.phases| <= 1 && AllFinished(s)
    ensures s.outcomes == Upto(|s.phases|)
  {
    forall k | 0 <= k < |s.outcomes| ensures s.outcomes[k] < |s.phases| {
      assert s.outcomes[k] in s.outcomes;
    }
    assert |s.phases| == 1 ==> 0 in s.outcomes;
    FirstTwoDiffer(s.outcomes);
  }

  lemma FirstTwoDiffer(s: seq<nat>)
    requires forall j, k :: 0 <= j < k < |s| ==> s[j] != s[k]
    ensures |s| >= 2 ==> s[0] != s[1]
  {
  }

  /** The outcomes keep the order of the tree in every completed run if and only if there is one worker, or one file. */
  lemma OutcomesFollowTreeIff(entries: seq<Entry>, workers: int, files: Files)
    ensures AlwaysInTreeOrder(entries, workers, files) <==> workers <= 1 || |entries| <= 1
  {
    if workers <= 1 || |entries| <= 1 {
      forall events | var r := Run(entries, workers, Start(entries, workers, files), events);
                      r.Some? && AllFinished(r.value)
        ensures Run(entries, workers, Start(entries, workers, files), events).value.outcomes == Upto(|entries|)
      {
        var s := Run(entries, workers, Start(entries, workers, files), events).value;
        RunsAreShaped(entries, workers, files, events);
        if workers <= 1 {
          OneWorkerIsOrdered(entries, workers, files, events);
          FinishedInOrder(s);
        } else {
          FewFilesKeepOrder(s);
        }
      }
    } else {
      OutcomeOrderIsFree(entries, workers, files);
      assert (Range(1, |entries|) + [0])[0] == 1;
    }
  }

  lemma FinishedInOrder(s: State)
    requires OneAtATime(s) && Queued(s) && AllFinished(s)
    ensures s.outcomes == Upto(|s.phases|)
  {
    NextWaits(s);
  }

  lemma NextWaits(s: State)
    requires Queued(s)
    ensures s.admitted < |s.phases| ==> s.phases[s.admitted].Waiting?
  {
  }
}
