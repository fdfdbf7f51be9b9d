/**
 Exactly when the second threads can do harm: while the pool may still grow. With MAX_WORKER_THREADS workers, the
 program as written runs as WorkerThreads does, for good; with fewer, it has a continuation that serves a socket
 twice, one that lists a worker free twice, and one that loses an event.
 */
module GrowthLimit {
  import opened Common
  import opened WorkerThreads
  import opened Handshake
  import opened CompletionRaces
  import opened SerialRuns
  import opened RaceWitnesses
  import opened DoubleStart
  import opened DoubleListing

  /** The program waits for events, and no worker has a second thread. */
  ghost predicate Ungrown(p: Program) {
    Runs(AT_START, p, false) && p.twins == map[] && !p.s.undefined && p.s.dpc == Idle
  }

  lemma UngrownReachable(p: Program)
    requires Runs(AT_START, p, false) && p.twins == map[]
    ensures Reachable(p.s)
  {
    var steps: seq<ProgramStep> :| ProgramExec(AT_START, steps) == Some(p);
    UngrownIsSingle(AT_START, steps);
    var singles: seq<Step> :| Exec(Init(), singles) == Some(p.s);
  }

  // ---------------------------------------------------------------- at the limit

  /** No growth is under way, and none will come. */
  predicate Full(p: Program) {
    && p.twins == map[] && |p.s.workers| >= MAX_WORKER_THREADS
    && !p.s.dpc.RecordBusy? && !(HandsOff(p.s.dpc) && p.s.dpc.grown)
  }

  lemma StaysFull(p: Program, step: ProgramStep)
    requires Full(p) && ProgramNext(p, step).Some?
    ensures Full(ProgramNext(p, step).value)
  {
  }

  lemma {:induction false} StaysFullThroughout(p: Program, steps: seq<ProgramStep>)
    requires Full(p) && ProgramExec(p, steps).Some?
    ensures Full(ProgramExec(p, steps).value)
    decreases |steps|
  {
    if steps != [] {
      StaysFull(p, steps[0]);
      StaysFullThroughout(ProgramNext(p, steps[0]).value, steps[1..]);
    }
  }

  /** With no room to grow, every run from here is one of WorkerThreads: all that holds there holds of the program. */
  lemma AtLimitIsSingle(p: Program, q: Program)
    requires Ungrown(p) && |p.s.workers| >= MAX_WORKER_THREADS && Runs(p, q, false)
    ensures q.twins == map[] && Reachable(q.s)
  {
    var a: seq<ProgramStep> :| ProgramExec(AT_START, a) == Some(p);
    var b: seq<ProgramStep> :| ProgramExec(p, b) == Some(q);
    StaysFullThroughout(p, b);
    ExecutesOn(AT_START, a, b);
    assert ProgramExec(AT_START, a + b) == Some(q);
    UngrownReachable(q);
  }

  predicate ListedTwice(s: State) {
    exists i, j :: 0 <= i < j < |s.free| && s.free[i] == s.free[j]
  }

  /** An event that came and was never served, and that nobody will serve. */
  predicate EventLost(s: State, item: Socket) {
    item in s.dispatched && Absent(s, item)
  }

  lemma {:induction false} GivenToSomebody(ws: seq<Worker>, item: Socket) returns (id: nat)
    requires item in AllGiven(ws)
    ensures id < |ws| && item in ws[id].given
  {
    var n := |ws| - 1;
    if item in multiset(ws[n].given) {
      id := n;
    } else {
      id := GivenToSomebody(ws[..n], item);
    }
  }

  /** With one thread for each worker no event is lost. */
  lemma NoEventLost(s: State, item: Socket)
    requires Reachable(s)
    ensures !EventLost(s, item)
  {
    ReachableInv(s);
    NoWorkLost(s);
    if EventLost(s, item) {
      assert item in multiset(s.dispatched);
      assert item !in multiset(s.pending) && item !in InHand(s.dpc);
      var id := GivenToSomebody(s.workers, item);
      GivenIsServed(s.workers[id], RoleOf(s.dpc, id), id in s.free, item);
    }
  }

  lemma GivenIsServed(w: Worker, role: Role, listed: bool, item: Socket)
    requires WorkerInv(w, role, listed) && item in w.given
    ensures item in w.served || w.socket == Some(item)
  {
    var k :| 0 <= k < |w.given| && w.given[k] == item;
    if k < |w.served| { assert w.served[k] == item; }
  }

  // ---------------------------------------------------------------- below the limit

  /** Nothing is queued before the pool has reached its limit. */
  predicate QueuedAtLimit(s: State) {
    && (s.pushed != [] || s.dpc.PushItem? ==> |s.workers| >= MAX_WORKER_THREADS)
    && forall id :: 0 <= id < |s.workers| && Committed(s.workers[id]) ==> s.pushed != []
  }

  lemma WorkerKeepsQueued(s: State, id: nat)
    requires QueuedAtLimit(s) && QueueInv(s) && id < |s.workers| && WorkerStep(s, id).Some?
    ensures QueuedAtLimit(WorkerStep(s, id).value)
  {
    if s.pending != [] { assert s.pushed != []; }
  }

  lemma DispatcherKeepsQueued(s: State)
    requires QueuedAtLimit(s) && DispatcherStep(s).Some?
    ensures QueuedAtLimit(DispatcherStep(s).value)
  {
  }

  lemma NextKeepsQueued(s: State, step: Step)
    requires QueuedAtLimit(s) && QueueInv(s) && Next(s, step).Some?
    ensures QueuedAtLimit(Next(s, step).value)
  {
    match step
    case WorkerMoves(id) => WorkerKeepsQueued(s, id);
    case DispatcherMoves => DispatcherKeepsQueued(s);
    case _ =>
  }

  lemma {:induction false} ExecKeepsQueued(s: State, steps: seq<Step>)
    requires QueuedAtLimit(s) && QueueInv(s) && Exec(s, steps).Some?
    ensures QueuedAtLimit(Exec(s, steps).value) && QueueInv(Exec(s, steps).value)
    decreases |steps|
  {
    if steps != [] {
      NextKeepsQueued(s, steps[0]);
      NextKeepsQueue(s, steps[0]);
      ExecKeepsQueued(Next(s, steps[0]).value, steps[1..]);
    }
  }

  lemma NothingQueuedBelow(s: State)
    requires Reachable(s) && |s.workers| < MAX_WORKER_THREADS
    ensures s.pending == []
  {
    var steps: seq<Step> :| Exec(Init(), steps) == Some(s);
    ExecKeepsQueued(Init(), steps);
  }

  /** Enough events take every free worker. */
  lemma {:induction false} TakeAllFree(s: State) returns (t: State)
    requires BetweenEvents(s)
    ensures Takes(s, t) && BetweenEvents(t) && t.free == [] && |t.workers| == |s.workers|
    decreases |s.free|
  {
    TakesSelf(s);
    t := s;
    if s.free != [] {
      var u := DispatchToFront(s, 0);
      t := TakeAllFree(u);
      TakesThen(s, u, t);
    }
  }

  /** The next event grows the pool, up to the second Create. */
  lemma GrowNext(s: State) returns (t: State)
    requires BetweenEvents(s) && s.free == [] && |s.workers| < MAX_WORKER_THREADS
    ensures Takes(s, t) && !t.undefined && t.free == [] && t.pending == s.pending
    ensures t.dpc == RecordBusy(|s.workers|) && |t.workers| == |s.workers| + 1
    ensures var w := t.workers[|s.workers|]; InService(w) && w.pc == TestResume && w.socket.Some?
  {
    TakesSelf(s);
    t := SerialAssign(s, s, 0);
    t := SerialResume(s, t);
  }

  /** From anywhere below the limit, a run to the end of a growth. */
  lemma GrowthAhead(p: Program) returns (q: Program)
    requires Ungrown(p) && |p.s.workers| < MAX_WORKER_THREADS
    ensures Runs(p, q, false) && Reachable(q.s) && !q.s.undefined && Unmoved(q.twins)
    ensures q.s.free == [] && q.s.pending == [] && q.s.dpc.RecordBusy? && q.s.dpc.id < |q.s.workers|
    ensures var w := q.s.workers[q.s.dpc.id]; InService(w) && w.pc == TestResume && w.socket.Some?
  {
    UngrownReachable(p);
    ReachableInv(p.s);
    var s := TakeAllFree(p.s);
    ReachableThen(p.s, s);
    NothingQueuedBelow(s);
    var t := GrowNext(s);
    ReachableThen(s, t);
    TakesThen(p.s, s, t);
    RunsSelf(p, false);
    q := FirstsTake(p, p, t);
  }

  /** The grown worker comes to the test of OnWorkComplete, its second thread about to start. */
  lemma GrownAtTest(start: Program, p: Program) returns (q: Program, id: nat)
    requires Runs(start, p, false) && Reachable(p.s) && !p.s.undefined && Unmoved(p.twins)
    requires p.s.free == [] && p.s.pending == [] && p.s.dpc.RecordBusy? && p.s.dpc.id < |p.s.workers|
    requires var w := p.s.workers[p.s.dpc.id]; InService(w) && w.pc == TestResume && w.socket.Some?
    ensures Runs(start, q, false) && Reachable(q.s) && BetweenEvents(q.s) && q.s.free == [] && q.s.pending == []
    ensures id < |q.s.workers| && id in q.twins && Unmoved(q.twins)
    ensures q.s.workers[id].pc == CheckCount && q.s.workers[id].socket.Some?
  {
    id := p.s.dpc.id;
    RunsThen(start, p, Single(DispatcherMoves), false);
    q := ProgramNext(p, Single(DispatcherMoves)).value;
    RecordReached(p.s, q.s);
    var t := ToTest(q.s, id);
    ReachesTakes(q.s, t);
    ReachableThen(q.s, t);
    q := FirstsTake(start, q, t);
  }

  lemma ToTest(s: State, id: nat) returns (t: State)
    requires BetweenEvents(s) && id < |s.workers|
    requires var w := s.workers[id]; InService(w) && w.pc == TestResume && w.socket.Some?
    ensures BetweenEvents(t) && Reaches(s, t)
    ensures |t.workers| == |s.workers| && t.free == s.free && t.pending == s.pending
    ensures t.workers[id].pc == CheckCount && t.workers[id].socket.Some?
  {
    var w := s.workers[id];
    var w1 := w.(pc := LoadSocket);
    var w2 := w.(pc := Receiving, served := w.served + [w.socket.value]);
    var w3 := w2.(pc := CheckCount);
    MoveAlone(s, id, w1);
    t := MoveOn(s, Put(s, id, w1), id, w2);
    t := MoveOn(s, t, id, w3);
    PutTwice(s, id, w1, w2);
    PutTwice(s, id, w2, w3);
  }

  lemma MoveOn(start: State, s: State, id: nat, w: Worker) returns (t: State)
    requires Reaches(start, s) && BetweenEvents(s) && id < |s.workers|
    requires RunThread(s.workers[id], s.pending) == Some(Moves(w))
    ensures t == Put(s, id, w) && Reaches(start, t) && BetweenEvents(t)
  {
    MoveAlone(s, id, w);
    t := Put(s, id, w);
    ReachesThen(start, s, t);
  }

  /** From anywhere below the limit, a run that lists a worker twice, with nobody else on the free list. */
  lemma ListingAhead(p: Program) returns (q: Program, id: nat)
    requires Ungrown(p) && |p.s.workers| < MAX_WORKER_THREADS
    ensures Runs(p, q, false) && q.s.free == [id, id] && !q.s.undefined && q.s.dpc == Idle && Unmoved(q.twins)
    ensures id < |q.s.workers| && q.s.workers[id].lock == Nobody && q.s.workers[id].pc == TestResume
    ensures forall item :: item !in q.s.dispatched ==> Absent(q.s, item)
  {
    var r := GrowthAhead(p);
    r, id := GrownAtTest(p, r);
    q := ListingFrom(r, id);
    RunsOn(p, r, q);
  }

  lemma ListingFrom(r: Program, id: nat) returns (q: Program)
    requires Reachable(r.s) && BetweenEvents(r.s) && r.s.free == [] && r.s.pending == [] && Unmoved(r.twins)
    requires id < |r.s.workers| && id in r.twins && r.s.workers[id].pc == CheckCount && r.s.workers[id].socket.Some?
    ensures Runs(r, q, true) && q.s.free == [id, id] && !q.s.undefined && q.s.dpc == Idle && q.twins == r.twins
    ensures id < |q.s.workers| && q.s.workers[id].lock == Nobody && q.s.workers[id].pc == TestResume
    ensures forall item :: item !in q.s.dispatched ==> Absent(q.s, item)
  {
    RunsSelf(r, true);
    q := ListsTwice(r.s, r.twins, id, r);
    assert r.s.workers[id].lock == Nobody by { assert WorkerInv(r.s.workers[id], Uninvolved, id in r.s.free); }
    forall item | item !in q.s.dispatched
      ensures Absent(q.s, item)
    {
      NeverDispatched(r.s, item);
      StillAbsent(r.s, q.s, id, item);
    }
  }

  // ---------------------------------------------------------------- the exact conditions

  /** A worker can come to be listed free twice exactly while the pool may grow. */
  lemma ListedTwiceExactlyWhen(p: Program)
    requires Ungrown(p)
    ensures (exists q :: Runs(p, q, false) && ListedTwice(q.s)) <==> |p.s.workers| < MAX_WORKER_THREADS
  {
    if |p.s.workers| < MAX_WORKER_THREADS {
      var q, id := ListingAhead(p);
      assert q.s.free[0] == q.s.free[1];
      assert ListedTwice(q.s);
    } else {
      forall q | Runs(p, q, false)
        ensures !ListedTwice(q.s)
      {
        AtLimitIsSingle(p, q);
        ReachableInv(q.s);
      }
    }
  }

  /** An event can be lost exactly while the pool may grow. */
  lemma EventLostExactlyWhen(p: Program)
    requires Ungrown(p)
    ensures (exists q, item :: Runs(p, q, false) && EventLost(q.s, item)) <==> |p.s.workers| < MAX_WORKER_THREADS
  {
    if |p.s.workers| < MAX_WORKER_THREADS {
      var q, id := ListingAhead(p);
      var item := UnusedItem(q.s.dispatched);
      var t := SlotOverwritten(q.s, id, item, item + 1);
      var r := FirstsTake(p, q, t);
      assert EventLost(r.s, item);
    } else {
      forall q, item | Runs(p, q, false)
        ensures !EventLost(q.s, item)
      {
        AtLimitIsSingle(p, q);
        NoEventLost(q.s, item);
      }
    }
  }

  /** A socket can be served twice for one assignment exactly while the pool may grow. */
  lemma ServedTwiceExactlyWhen(p: Program)
    requires Ungrown(p)
    ensures (exists q, id: nat :: Runs(p, q, false) && ServedTwice(q.s, id)) <==> |p.s.workers| < MAX_WORKER_THREADS
  {
    if |p.s.workers| < MAX_WORKER_THREADS {
      var r := GrowthAhead(p);
      var q := GrowthServesTwice(p, r);
      assert ServedTwice(q.s, r.s.dpc.id);
    } else {
      forall q, id: nat | Runs(p, q, false)
        ensures !ServedTwice(q.s, id)
      {
        AtLimitIsSingle(p, q);
        ReachableInv(q.s);
        if id < |q.s.workers| { assert WorkerInv(q.s.workers[id], RoleOf(q.s.dpc, id), id in q.s.free); }
      }
    }
  }

  /** A new dispatcher has fewer workers: it has runs that do all of this. */
  lemma HarmIsReachable() returns (twice: Program, lost: Program, item: Socket)
    ensures Runs(AT_START, twice, false) && ListedTwice(twice.s)
    ensures Runs(AT_START, lost, false) && EventLost(lost.s, item)
  {
    RunsSelf(AT_START, false);
    ListedTwiceExactlyWhen(AT_START);
    twice :| Runs(AT_START, twice, false) && ListedTwice(twice.s);
    EventLostExactlyWhen(AT_START);
    lost, item :| Runs(AT_START, lost, false) && EventLost(lost.s, item);
  }

  /** Enough workers added before the first event, and the harm cannot come. */
  lemma {:induction false} WorkersAddedFirst(count: nat) returns (p: Program)
    ensures Ungrown(p) && |p.s.workers| == INITIAL_WORKERS + count
    decreases count
  {
    if count == 0 {
      RunsSelf(AT_START, false);
      p := AT_START;
    } else {
      p := WorkersAddedFirst(count - 1);
      RunsThen(AT_START, p, Single(AddWorker), false);
      p := ProgramNext(p, Single(AddWorker)).value;
    }
  }
}
