/**
 ProcessData creates the thread of a grown worker twice: in CreateNewWorker and again at the end of the
 growth branch. WorkerThreads models the intended single thread. This module is the program as written: each
 growth leaves a second thread on its worker, which runs the same code on the same control slot. It says exactly
 when such a thread can serve a socket twice.
 */
module DoubleStart {
  import opened Common
  import Schedules
  import opened WorkerThreads
  import opened Handshake
  import opened CompletionRaces
  import opened SerialRuns
  import opened RaceWitnesses

  /** The first threads as in WorkerThreads, and where the second threads stand. */
  datatype Program = Program(s: State, twins: map<nat, WorkerPc>)

  datatype ProgramStep =
    | Single(step: Step)      // a step of WorkerThreads
    | TwinMoves(id: nat)
    | TwinWakes(id: nat)      // a spurious wakeup of a second thread
    | SignalsTwin             // the dispatcher's signal wakes the second thread, and not the first

  function WakePc(pc: WorkerPc): WorkerPc { if pc == Blocked then Woken else pc }

  /** What a step of WorkerThreads does to the second threads: the growth branch ends with the second Create, and a
      signal that finds only the second thread asleep wakes that one. */
  function TwinsAfter(p: Program, step: Step): map<nat, WorkerPc> {
    var d := p.s.dpc;
    if step == DispatcherMoves && d.RecordBusy? then p.twins[d.id := TestResume]
    else if step == DispatcherMoves && d.ResumeSignal? && d.id in p.twins && d.id < |p.s.workers|
      && p.s.workers[d.id].pc != Blocked then p.twins[d.id := WakePc(p.twins[d.id])]
    else p.twins
  }

  /** A step of a second thread: the code of the first, at its own place. */
  function TwinStep(p: Program, id: nat): Option<Program>
    requires id in p.twins && id < |p.s.workers|
  {
    var own := p.s.workers[id].pc;
    var t := WorkerStep(Put(p.s, id, p.s.workers[id].(pc := p.twins[id])), id);
    if t.None? then None
    else
      var w := t.value.workers[id];
      Some(Program(Put(t.value, id, w.(pc := own)), p.twins[id := w.pc]))
  }

  function ProgramNext(p: Program, step: ProgramStep): Option<Program> {
    if p.s.undefined then None
    else
      match step
      case Single(single) =>
        var t := Next(p.s, single);
        if t.None? then None else Some(Program(t.value, TwinsAfter(p, single)))
      case TwinMoves(id) =>
        if id in p.twins && id < |p.s.workers| then TwinStep(p, id) else None
      case TwinWakes(id) =>
        if id in p.twins && p.twins[id] == Blocked then Some(p.(twins := p.twins[id := Woken])) else None
      case SignalsTwin =>
        var d := p.s.dpc;
        if d.ResumeSignal? && d.id in p.twins && p.twins[d.id] == Blocked then
          Some(Program(p.s.(dpc := ResumeUnlock(d.id, d.grown)), p.twins[d.id := Woken]))
        else None
  }

  function ProgramExec(p: Program, steps: seq<ProgramStep>): Option<Program> {
    Schedules.Run(ProgramNext, p, steps)
  }

  /** A step of a worker's thread: the dispatcher waits for events. */
  predicate Alone(step: ProgramStep) {
    !step.SignalsTwin? && (step.Single? ==> step.step.WorkerMoves? || step.step.SpuriousWakeup?)
  }

  predicate AllAlone(steps: seq<ProgramStep>) {
    forall i :: 0 <= i < |steps| ==> Alone(steps[i])
  }

  /** Some schedule leads from p to q; of the workers alone, if so asked. */
  ghost predicate Runs(p: Program, q: Program, alone: bool) {
    exists steps: seq<ProgramStep> :: (alone ==> AllAlone(steps)) && ProgramExec(p, steps) == Some(q)
  }

  const AT_START := Program(Init(), map[])

  /** The worker called ReceiveData once more than it was given sockets: its last socket twice. */
  predicate ServedTwice(s: State, id: nat) {
    id < |s.workers| && var w := s.workers[id]; w.given != [] && w.served == w.given + [w.given[|w.given| - 1]]
  }

  // ---------------------------------------------------------------- schedules

  lemma RunsSelf(p: Program, alone: bool)
    ensures Runs(p, p, alone)
  {
    assert AllAlone([]) && ProgramExec(p, []) == Some(p);
  }

  lemma RunsThen(p: Program, q: Program, step: ProgramStep, alone: bool)
    requires Runs(p, q, alone) && ProgramNext(q, step).Some? && (alone ==> Alone(step))
    ensures Runs(p, ProgramNext(q, step).value, alone)
  {
    var steps: seq<ProgramStep> :| (alone ==> AllAlone(steps)) && ProgramExec(p, steps) == Some(q);
    Schedules.RunThen(ProgramNext, p, steps, step);
    assert ProgramExec(p, steps + [step]) == ProgramNext(q, step);
    assert alone ==> AllAlone(steps + [step]);
  }

  /** No second thread has moved. */
  predicate Unmoved(twins: map<nat, WorkerPc>) {
    forall id :: id in twins ==> twins[id] == TestResume
  }

  /** The first threads run while no second one moves. */
  lemma {:induction false} FirstsRun(start: Program, p: Program, steps: seq<Step>, alone: bool) returns (q: Program)
    requires Runs(start, p, alone) && Unmoved(p.twins) && Exec(p.s, steps).Some? && (alone ==> WorkersOnly(steps))
    ensures Runs(start, q, alone) && Some(q.s) == Exec(p.s, steps) && Unmoved(q.twins) && p.twins.Keys <= q.twins.Keys
    decreases |steps|
  {
    q := p;
    if steps != [] {
      RunsThen(start, p, Single(steps[0]), alone);
      q := ProgramNext(p, Single(steps[0])).value;
      q := FirstsRun(start, q, steps[1..], alone);
    }
  }

  lemma FirstsTake(start: Program, p: Program, t: State) returns (q: Program)
    requires Runs(start, p, false) && Unmoved(p.twins) && Takes(p.s, t)
    ensures Runs(start, q, false) && q.s == t && Unmoved(q.twins) && p.twins.Keys <= q.twins.Keys
  {
    var steps: seq<Step> :| Exec(p.s, steps) == Some(t);
    q := FirstsRun(start, p, steps, false);
  }

  // ---------------------------------------------------------------- a worker in service

  /** A worker in service, left to itself, calls ReceiveData on what it was given. */
  lemma {:induction false} BringToService(s: State, id: nat) returns (t: State)
    requires BetweenEvents(s) && id < |s.workers| && InService(s.workers[id])
    ensures BetweenEvents(t) && Reaches(s, t) && |t.workers| == |s.workers|
    ensures InService(t.workers[id]) && t.workers[id].served == t.workers[id].given == s.workers[id].given
    decreases StepsToService(s.workers[id].pc)
  {
    ReachesSelf(s);
    t := s;
    if PastLoad(s.workers[id].pc) {
      assert WorkerInv(s.workers[id], Uninvolved, id in s.free);
    } else {
      var u := TowardsService(s, id);
      t := BringToService(u, id);
      ReachesThen(s, u, t);
    }
  }

  lemma TowardsService(s: State, id: nat) returns (t: State)
    requires BetweenEvents(s) && id < |s.workers| && InService(s.workers[id]) && !PastLoad(s.workers[id].pc)
    ensures BetweenEvents(t) && Reaches(s, t) && |t.workers| == |s.workers|
    ensures InService(t.workers[id]) && t.workers[id].given == s.workers[id].given
    ensures StepsToService(t.workers[id].pc) < StepsToService(s.workers[id].pc)
  {
    var w := s.workers[id];
    assert WorkerInv(w, Uninvolved, id in s.free);
    RunThreadApproaches(w, Uninvolved, id in s.free, s.pending);
    RunThreadGivesRightly(w, s.pending);
    RunThreadKeepsInv(w, Uninvolved, id in s.free, s.pending);
    t := Put(s, id, RunThread(w, s.pending).value.w);
    MoveAlone(s, id, t.workers[id]);
  }

  /** A second thread's step, if it only moves on. */
  lemma TwinMovesOn(start: Program, p: Program, id: nat, v: Worker, alone: bool) returns (q: Program)
    requires Runs(start, p, alone) && !p.s.undefined && id in p.twins && id < |p.s.workers|
    requires RunThread(p.s.workers[id].(pc := p.twins[id]), p.s.pending) == Some(Moves(v))
    ensures Runs(start, q, alone)
    ensures q == Program(Put(p.s, id, v.(pc := p.s.workers[id].pc)), p.twins[id := v.pc])
  {
    RunsThen(start, p, TwinMoves(id), alone);
    q := ProgramNext(p, TwinMoves(id)).value;
    var w := p.s.workers[id];
    assert p.s.workers[id := w.(pc := p.twins[id])][id := v][id := v.(pc := w.pc)] == p.s.workers[id := v.(pc := w.pc)];
  }

  /** A second thread that finds its worker in service calls ReceiveData on the socket in the slot. */
  lemma TwinServes(start: Program, p: Program, id: nat, alone: bool) returns (q: Program)
    requires Runs(start, p, alone) && !p.s.undefined && id in p.twins && p.twins[id] == TestResume
    requires id < |p.s.workers| && InService(p.s.workers[id]) && p.s.workers[id].socket.Some?
    ensures Runs(start, q, alone) && |q.s.workers| == |p.s.workers|
    ensures var w := p.s.workers[id]; q.s.workers[id] == w.(served := w.served + [w.socket.value])
  {
    var w := p.s.workers[id];
    q := TwinMovesOn(start, p, id, w.(pc := LoadSocket), alone);
    q := TwinMovesOn(start, q, id, w.(pc := Receiving, served := w.served + [w.socket.value]), alone);
  }

  /** Wherever the worker stands, if it is in service while its second thread has not moved, some schedule of the two
      threads serves its last socket twice. */
  lemma SecondThreadServesTwice(start: Program, p: Program, id: nat, alone: bool) returns (q: Program)
    requires Runs(start, p, alone) && BetweenEvents(p.s) && id < |p.s.workers| && InService(p.s.workers[id])
    requires Unmoved(p.twins) && id in p.twins
    ensures Runs(start, q, alone) && ServedTwice(q.s, id)
  {
    var t := BringToService(p.s, id);
    var steps: seq<Step> :| WorkersOnly(steps) && Exec(p.s, steps) == Some(t);
    q := FirstsRun(start, p, steps, alone);
    assert WorkerInv(t.workers[id], Uninvolved, id in t.free);
    q := TwinServes(start, q, id, alone);
  }

  // ---------------------------------------------------------------- a worker not in service

  /** A thread that has nothing to serve, and will not look for it before the state changes. */
  predicate Idles(pc: WorkerPc) {
    pc != LoadSocket && !PastLoad(pc) && pc != Exited && pc != ReturnFree
  }

  /** A worker at rest, at its own place or at that of its second thread. */
  predicate Resting(w: Worker) {
    w.state == SLEEP_WAIT && w.served == w.given && (Idles(w.pc) || w.pc == ReturnFree)
  }

  /** Both threads of a worker have nothing to do. */
  predicate Dozes(p: Program, id: nat) {
    && p.s.dpc == Idle && id < |p.s.workers| && id in p.twins
    && Idles(p.twins[id]) && Resting(p.s.workers[id])
  }

  lemma RestsOn(w: Worker, pending: seq<Socket>)
    requires Resting(w) && RunThread(w, pending).Some?
    ensures var o := RunThread(w, pending).value;
      ((o.Moves? && Idles(w.pc)) || (o.Returns? && w.pc == ReturnFree)) && Resting(o.w) && Idles(o.w.pc)
  {
  }

  lemma FirstDozesOn(p: Program, id: nat, mover: nat)
    requires Dozes(p, id) && mover < |p.s.workers| && WorkerStep(p.s, mover).Some?
    ensures Dozes(p.(s := WorkerStep(p.s, mover).value), id)
  {
    if mover == id { RestsOn(p.s.workers[id], p.s.pending); } else { OthersUntouched(p.s, mover, id); }
  }

  lemma TwinDozesOn(p: Program, id: nat, mover: nat)
    requires Dozes(p, id) && mover in p.twins && mover < |p.s.workers| && TwinStep(p, mover).Some?
    ensures Dozes(TwinStep(p, mover).value, id)
  {
    var u := Put(p.s, mover, p.s.workers[mover].(pc := p.twins[mover]));
    if mover == id { RestsOn(u.workers[id], p.s.pending); } else { OthersUntouched(u, mover, id); }
  }

  lemma DozesOn(p: Program, id: nat, step: ProgramStep)
    requires Dozes(p, id) && Alone(step) && ProgramNext(p, step).Some?
    ensures Dozes(ProgramNext(p, step).value, id)
  {
    match step
    case Single(single) => if single.WorkerMoves? { FirstDozesOn(p, id, single.id); }
    case TwinMoves(mover) => TwinDozesOn(p, id, mover);
    case TwinWakes(_) =>
  }

  lemma {:induction false} DozesThroughout(p: Program, id: nat, steps: seq<ProgramStep>)
    requires Dozes(p, id) && AllAlone(steps) && ProgramExec(p, steps).Some?
    ensures Dozes(ProgramExec(p, steps).value, id)
    decreases |steps|
  {
    if steps != [] {
      DozesOn(p, id, steps[0]);
      DozesThroughout(ProgramNext(p, steps[0]).value, id, steps[1..]);
    }
  }

  /** Until the next event, a second thread that starts on a worker can bring about that it serves a socket twice
      exactly when it finds the worker in service. */
  lemma ServesTwiceExactlyWhen(s: State, id: nat)
    requires BetweenEvents(s) && id < |s.workers|
    ensures (exists q :: Runs(Program(s, map[id := TestResume]), q, true) && ServedTwice(q.s, id)) <==>
      InService(s.workers[id])
  {
    var p := Program(s, map[id := TestResume]);
    if InService(s.workers[id]) {
      RunsSelf(p, true);
      var q := SecondThreadServesTwice(p, p, id, true);
    } else {
      assert WorkerInv(s.workers[id], Uninvolved, id in s.free);
      forall q | Runs(p, q, true)
        ensures !ServedTwice(q.s, id)
      {
        var steps: seq<ProgramStep> :| AllAlone(steps) && ProgramExec(p, steps) == Some(q);
        DozesThroughout(p, id, steps);
      }
    }
  }

  // ---------------------------------------------------------------- with events

  /** The next event goes to the worker at the front of the free list. */
  lemma DispatchToFront(s: State, item: Socket) returns (t: State)
    requires BetweenEvents(s) && s.free != []
    ensures Takes(s, t) && BetweenEvents(t) && t.free == s.free[1..] && |t.workers| == |s.workers|
    ensures s.free[0] < |t.workers| && InService(t.workers[s.free[0]])
  {
    TakesSelf(s);
    var u := FallsAsleep(s, s, s.free[0]);
    assert WorkerInv(u.workers[s.free[0]], Uninvolved, true);
    var v := SerialAssign(s, u, item);
    t := SerialResume(s, v);
    TakesKeepsInv(s, t);
  }

  /** Enough events bring a free worker into service. */
  lemma {:induction false} FreeWorkerResumed(s: State, id: nat) returns (t: State)
    requires BetweenEvents(s) && id < |s.workers| && id in s.free
    ensures Takes(s, t) && BetweenEvents(t) && |t.workers| == |s.workers| && InService(t.workers[id])
    decreases |s.free|
  {
    t := DispatchToFront(s, 0);
    if id != s.free[0] {
      assert id in s.free[1..];
      var u := t;
      t := FreeWorkerResumed(u, id);
      TakesThen(s, u, t);
    }
  }

  /** Any worker comes into service, again or still. */
  lemma ComesIntoService(s: State, id: nat) returns (t: State)
    requires BetweenEvents(s) && id < |s.workers|
    ensures Takes(s, t) && BetweenEvents(t) && |t.workers| == |s.workers| && InService(t.workers[id])
  {
    assert WorkerInv(s.workers[id], Uninvolved, id in s.free);
    TakesSelf(s);
    t := s;
    if s.workers[id].pc == ReturnFree {
      TakesNext(s, s, WorkerMoves(id));
      NextKeepsInv(s, WorkerMoves(id));
      t := Next(s, WorkerMoves(id)).value;
      assert t.free[|s.free|] == id;
    }
    if !InService(t.workers[id]) {
      var u := t;
      t := FreeWorkerResumed(u, id);
      TakesThen(s, u, t);
    }
  }

  /** With events to come, it makes no difference whether the new worker is still in service at the end of its growth:
      every growth has a continuation in which its worker serves a socket twice. */
  lemma GrowthServesTwice(start: Program, p: Program) returns (q: Program)
    requires Runs(start, p, false) && Reachable(p.s) && !p.s.undefined && p.s.dpc.RecordBusy? && Unmoved(p.twins)
    ensures Runs(start, q, false) && ServedTwice(q.s, p.s.dpc.id)
  {
    var id := p.s.dpc.id;
    ReachableInv(p.s);
    NextKeepsInv(p.s, DispatcherMoves);
    RunsThen(start, p, Single(DispatcherMoves), false);
    q := ProgramNext(p, Single(DispatcherMoves)).value;
    var t := ComesIntoService(q.s, id);
    q := FirstsTake(start, q, t);
    q := SecondThreadServesTwice(start, q, id, false);
  }

  // ---------------------------------------------------------------- whole runs

  /** Before the first growth, the program runs as WorkerThreads does. */
  lemma {:induction false} UngrownIsSingle(p: Program, steps: seq<ProgramStep>)
    requires p.twins == map[] && ProgramExec(p, steps).Some? && ProgramExec(p, steps).value.twins == map[]
    ensures Takes(p.s, ProgramExec(p, steps).value.s)
    decreases |steps|
  {
    TakesSelf(p.s);
    if steps != [] {
      var q := ProgramNext(p, steps[0]).value;
      if q.twins == map[] {
        UngrownIsSingle(q, steps[1..]);
        TakesNext(p.s, p.s, steps[0].step);
        TakesThen(p.s, q.s, ProgramExec(p, steps).value.s);
      } else {
        TwinsStay(q, steps[1..]);
      }
    }
  }

  lemma {:induction false} TwinsStay(p: Program, steps: seq<ProgramStep>)
    requires ProgramExec(p, steps).Some?
    ensures p.twins.Keys <= ProgramExec(p, steps).value.twins.Keys
    decreases |steps|
  {
    if steps != [] { TwinsStay(ProgramNext(p, steps[0]).value, steps[1..]); }
  }

  /** As long as no worker has a second thread, nothing is served twice. */
  lemma OneThreadServesOnce(p: Program, id: nat)
    requires Runs(AT_START, p, false) && p.twins == map[] && id < |p.s.workers|
    ensures Reachable(p.s) && !ServedTwice(p.s, id)
  {
    var steps: seq<ProgramStep> :| ProgramExec(AT_START, steps) == Some(p);
    UngrownIsSingle(AT_START, steps);
    var singles: seq<Step> :| Exec(Init(), singles) == Some(p.s);
    ReachableInv(p.s);
  }

  /** As soon as one may be served twice: the first growth. */
  lemma FirstGrowthServesTwice(p: Program) returns (q: Program)
    requires Runs(AT_START, p, false) && p.twins == map[] && !p.s.undefined && p.s.dpc.RecordBusy?
    ensures Runs(AT_START, q, false) && ServedTwice(q.s, p.s.dpc.id)
  {
    var steps: seq<ProgramStep> :| ProgramExec(AT_START, steps) == Some(p);
    UngrownIsSingle(AT_START, steps);
    var singles: seq<Step> :| Exec(Init(), singles) == Some(p.s);
    q := GrowthServesTwice(AT_START, p);
  }

  /** The sixth of six events grows the pool. */
  lemma GrowthIsReachable() returns (s: State)
    ensures Reachable(s) && !s.undefined && s.dpc == RecordBusy(INITIAL_WORKERS) && |s.workers| == INITIAL_WORKERS + 1
    ensures s.free == [] && s.pending == [] && InService(s.workers[INITIAL_WORKERS])
    ensures forall id :: 0 <= id < |s.workers| ==> AtRest(s.workers[id])
  {
    var u := BusyReachable(INITIAL_WORKERS);
    TakesSelf(u);
    s := SerialAssign(u, u, 0);
    s := SerialResume(u, s);
    ReachableThen(u, s);
  }

  /** A run of the program that serves one event twice. */
  lemma DoubleServiceIsReachable() returns (q: Program)
    ensures Runs(AT_START, q, false) && ServedTwice(q.s, INITIAL_WORKERS)
  {
    var s := GrowthIsReachable();
    RunsSelf(AT_START, false);
    assert Takes(AT_START.s, s);
    q := FirstsTake(AT_START, AT_START, s);
    q := GrowthServesTwice(AT_START, q);
  }
}
