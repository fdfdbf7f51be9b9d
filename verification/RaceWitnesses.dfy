/**
 Runs from a new dispatcher that bring the failures about: ten events keep ten workers in service, one more is
 queued, and the completions race; and a shutdown comes before the workers have gone to sleep. Left to themselves,
 they do go to sleep.
 */
module RaceWitnesses {
  import opened Common
  import opened WorkerThreads
  import opened Handshake
  import opened CompletionRaces
  import opened SerialRuns
  import Shutdown
  import Pool

  lemma ReachableThen(s: State, t: State)
    requires Reachable(s) && Takes(s, t)
    ensures Reachable(t)
  {
    assert Takes(Init(), s);
    TakesThen(Init(), s, t);
  }

  function Events(count: nat): seq<Pool.Op<Socket>> {
    seq(count, _ => Pool.Dispatch(0))
  }

  function Total(taken: nat): nat { if taken < INITIAL_WORKERS then INITIAL_WORKERS else taken }

  /** So many workers have been taken, and nothing waits. */
  predicate Taken(p: Pool.Pool<Socket>, count: nat) {
    p.pending == [] && p.total == Total(count) && |p.free| == Total(count) - count
  }

  lemma {:induction false} EventsTakeWorkers(p: Pool.Pool<Socket>, taken: nat, count: nat)
    requires Taken(p, taken) && taken + count <= MAX_WORKER_THREADS
    ensures Pool.EnabledRun(p, Events(count)) && Taken(Pool.Run(p, Events(count)), taken + count)
    decreases count
  {
    if count > 0 {
      assert Events(count)[1..] == Events(count - 1);
      EventsTakeWorkers(Pool.DispatchOne(p, 0), taken + 1, count - 1);
    }
  }

  /** A run that leaves the first workers, so many of them, in service. */
  lemma BusyReachable(count: nat) returns (s: State)
    requires count <= MAX_WORKER_THREADS
    ensures Reachable(s) && Quiet(s) && s.pending == []
    ensures |s.workers| == Total(count) && |s.free| == Total(count) - count
  {
    EventsTakeWorkers(Pool.New(), 0, count);
    s := PoolRunsAreThreadRuns(Events(count));
  }

  lemma NobodyFree(s: State)
    requires BetweenEvents(s) && s.free == []
    ensures forall id :: 0 <= id < |s.workers| && AtRest(s.workers[id]) ==> InService(s.workers[id])
  {
    forall id | 0 <= id < |s.workers| && AtRest(s.workers[id])
      ensures InService(s.workers[id])
    {
      assert WorkerInv(s.workers[id], Uninvolved, id in s.free);
    }
  }

  /** A run of the program in which two completions race for one socket and one of them pops the empty queue. */
  lemma EmptyPopIsReachable() returns (t: State)
    ensures Reachable(t) && t.undefined
  {
    var s := BusyReachable(MAX_WORKER_THREADS);
    var u := SerialDispatch(s, 0);
    ReachableThen(s, u);
    NobodyFree(u);
    t := UnsafeFails(u, 0, 1);
    ReachesTakes(u, t);
    ReachableThen(u, t);
  }

  /** The first workers, so many of them, are at OnWorkComplete's test. */
  lemma {:induction false} AllToTest(s: State, count: nat) returns (t: State)
    requires Reachable(s) && Quiet(s) && s.free == [] && count <= |s.workers|
    ensures Reachable(t) && Quiet(t) && PoolOf(t) == PoolOf(s)
    ensures |t.workers| == |s.workers| && forall id :: 0 <= id < count ==> t.workers[id].pc == CheckCount
    decreases count
  {
    t := s;
    if count > 0 {
      var u := AllToTest(s, count - 1);
      NobodyFree(u);
      TakesSelf(u);
      t := BringToTest(u, u, count - 1);
      ReachableThen(u, t);
    }
  }

  /** The first workers, so many of them, have found the queue empty. */
  lemma {:induction false} AllFindEmpty(s: State, count: nat) returns (t: State)
    requires Reachable(s) && BetweenEvents(s) && s.pending == [] && count <= |s.workers|
    requires forall id :: 0 <= id < |s.workers| ==> s.workers[id].pc == CheckCount
    ensures Reachable(t) && BetweenEvents(t) && t == s.(workers := t.workers) && |t.workers| == |s.workers|
    ensures forall id :: 0 <= id < |s.workers| ==> t.workers[id].pc == if id < count then WriteSleep else CheckCount
    decreases count
  {
    t := s;
    if count > 0 {
      var u := AllFindEmpty(s, count - 1);
      var w := u.workers[count - 1].(pc := WriteSleep);
      TakesSelf(u);
      SerialMove(u, u, count - 1, w);
      t := Put(u, count - 1, w);
      ReachableThen(u, t);
    }
  }

  /** A run of the program that ends with a socket in the queue and every worker free. */
  lemma StrandedWorkIsReachable() returns (t: State)
    ensures Reachable(t) && Stranded(t)
  {
    var s := BusyReachable(MAX_WORKER_THREADS);
    s := AllToTest(s, MAX_WORKER_THREADS);
    s := AllFindEmpty(s, MAX_WORKER_THREADS);
    var u := QueueEvent(s);
    ReachableThen(s, u);
    assert !SomeoneActive(u);
    StrandingExactlyWhen(u);
    t :| Reaches(u, t) && Stranded(t);
    ReachesTakes(u, t);
    ReachableThen(u, t);
  }

  lemma QueueEvent(s: State) returns (t: State)
    requires BetweenEvents(s) && s.free == [] && |s.workers| == MAX_WORKER_THREADS
    ensures Takes(s, t) && BetweenEvents(t) && t.workers == s.workers && t.pending == s.pending + [0]
  {
    TakesSelf(s);
    var u := SerialAssign(s, s, 0);
    TakesKeepsInv(s, u);
    t := SerialPush(s, u);
  }

  // ---------------------------------------------------------------- shutting down

  /** A pool that is shut down as soon as it is made may leave a worker asleep. */
  lemma EarlyShutdownCanFail() returns (f: Shutdown.Ending)
    ensures Reachable(Init()) && BetweenEvents(Init())
    ensures Shutdown.Leads(Shutdown.Start(Init()), f, Shutdown.CALM) && Shutdown.Failed(f)
  {
    InitInv();
    assert Exec(Init(), []) == Some(Init());
    assert Init().workers[0].pc == TestResume;
    f := Shutdown.CanFail(Init(), Shutdown.CALM);
  }

  /** How many steps an idle worker is away from its sleep. */
  function StepsToBlocked(pc: WorkerPc): nat {
    match pc
    case Blocked => 0
    case PauseWait => 1
    case PauseTest => 2
    case Woken => 3
    case PauseLock => 3
    case TestSleepWait => 4
    case TestResume => 5
    case PauseUnlock => 6
    case TestTerminate => 6
    case TestSleepTime => 7
    case _ => 8
  }

  lemma IdleMoves(w: Worker, pending: seq<Socket>)
    requires WorkerInv(w, Uninvolved, true) && w.pc != Blocked
    ensures RunThread(w, pending).Some? && RunThread(w, pending).value.Moves?
    ensures StepsToBlocked(RunThread(w, pending).value.w.pc) < StepsToBlocked(w.pc)
  {
  }

  /** A free worker, left alone, goes to sleep. */
  lemma {:induction false} FallsAsleep(start: State, s: State, id: nat) returns (t: State)
    requires Takes(start, s) && BetweenEvents(s) && id < |s.workers| && id in s.free
    ensures Takes(start, t) && BetweenEvents(t) && |t.workers| == |s.workers| && t.free == s.free
    ensures t.workers[id].pc == Blocked && forall j :: 0 <= j < |s.workers| && j != id ==> t.workers[j] == s.workers[j]
    decreases StepsToBlocked(s.workers[id].pc)
  {
    t := s;
    if s.workers[id].pc != Blocked {
      assert WorkerInv(s.workers[id], Uninvolved, id in s.free);
      IdleMoves(s.workers[id], s.pending);
      var w := RunThread(s.workers[id], s.pending).value.w;
      SerialMove(start, s, id, w);
      t := FallsAsleep(start, Put(s, id, w), id);
    }
  }

  /** The first workers, so many of them, are asleep. */
  lemma {:induction false} AllFallAsleep(s: State, count: nat) returns (t: State)
    requires BetweenEvents(s) && count <= |s.workers| && forall id :: 0 <= id < |s.workers| ==> id in s.free
    ensures Takes(s, t) && BetweenEvents(t) && |t.workers| == |s.workers| && t.free == s.free
    ensures forall id :: 0 <= id < count ==> t.workers[id].pc == Blocked
    decreases count
  {
    TakesSelf(s);
    t := s;
    if count > 0 {
      t := AllFallAsleep(s, count - 1);
      t := FallsAsleep(s, t, count - 1);
    }
  }

  /** A run that ends with every worker asleep, so that a shutdown works. */
  lemma ParkedPoolIsReachable() returns (s: State)
    ensures Reachable(s) && BetweenEvents(s) && |s.workers| == INITIAL_WORKERS && Shutdown.AllParked(s)
  {
    InitInv();
    assert forall id :: 0 <= id < INITIAL_WORKERS ==> Init().free[id] == id;
    s := AllFallAsleep(Init(), INITIAL_WORKERS);
    assert Exec(Init(), []) == Some(Init());
    ReachableThen(Init(), s);
  }
}
