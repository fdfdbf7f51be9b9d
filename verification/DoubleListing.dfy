/**
 What the second thread of a grown worker does to the free list and to events: when both threads complete, the worker
 is listed free twice, so that two events in a row are written into its one slot, and the first is lost for good.
 */
module DoubleListing {
  import opened Common
  import Schedules
  import opened WorkerThreads
  import opened Handshake
  import opened CompletionRaces
  import opened SerialRuns
  import opened RaceWitnesses
  import opened DoubleStart

  // ---------------------------------------------------------------- two threads of one worker, nobody else moving

  /** The program with worker `id` and its second thread at these places, and this free list; otherwise as in s. */
  function Here(s: State, twins: map<nat, WorkerPc>, id: nat, w: Worker, pc: WorkerPc, free: seq<nat>): Program
    requires id < |s.workers|
  {
    Program(Put(s, id, w).(free := free), twins[id := pc])
  }

  lemma OwnMoves(s: State, twins: map<nat, WorkerPc>, id: nat, w: Worker, pc: WorkerPc, free: seq<nat>,
                 start: Program, w': Worker)
    requires id < |s.workers| && !s.undefined && Runs(start, Here(s, twins, id, w, pc, free), true)
    requires RunThread(w, s.pending) == Some(Moves(w'))
    ensures Runs(start, Here(s, twins, id, w', pc, free), true)
  {
    RunsThen(start, Here(s, twins, id, w, pc, free), Single(WorkerMoves(id)), true);
    assert s.workers[id := w][id := w'] == s.workers[id := w'];
  }

  lemma OwnReturns(s: State, twins: map<nat, WorkerPc>, id: nat, w: Worker, pc: WorkerPc, free: seq<nat>,
                   start: Program)
    requires id < |s.workers| && !s.undefined && w.pc == ReturnFree
    requires Runs(start, Here(s, twins, id, w, pc, free), true)
    ensures Runs(start, Here(s, twins, id, w.(pc := TestResume), pc, free + [id]), true)
  {
    RunsThen(start, Here(s, twins, id, w, pc, free), Single(WorkerMoves(id)), true);
    assert s.workers[id := w][id := w.(pc := TestResume)] == s.workers[id := w.(pc := TestResume)];
  }

  lemma PutThrice(ws: seq<Worker>, id: nat, a: Worker, b: Worker, c: Worker, d: Worker)
    requires id < |ws|
    ensures ws[id := a][id := b][id := c][id := d] == ws[id := d]
  {
  }

  lemma TwinMovesHere(s: State, twins: map<nat, WorkerPc>, id: nat, w: Worker, pc: WorkerPc, free: seq<nat>,
                      start: Program, v: Worker)
    requires id < |s.workers| && !s.undefined && Runs(start, Here(s, twins, id, w, pc, free), true)
    requires RunThread(w.(pc := pc), s.pending) == Some(Moves(v))
    ensures Runs(start, Here(s, twins, id, v.(pc := w.pc), v.pc, free), true)
  {
    var p := Here(s, twins, id, w, pc, free);
    RunsThen(start, p, TwinMoves(id), true);
    PutThrice(s.workers, id, w, w.(pc := pc), v, v.(pc := w.pc));
    assert twins[id := pc][id := v.pc] == twins[id := v.pc];
  }

  lemma TwinReturns(s: State, twins: map<nat, WorkerPc>, id: nat, w: Worker, free: seq<nat>, start: Program)
    requires id < |s.workers| && !s.undefined && Runs(start, Here(s, twins, id, w, ReturnFree, free), true)
    ensures Runs(start, Here(s, twins, id, w, TestResume, free + [id]), true)
  {
    var p := Here(s, twins, id, w, ReturnFree, free);
    RunsThen(start, p, TwinMoves(id), true);
    PutThrice(s.workers, id, w, w.(pc := ReturnFree), w.(pc := TestResume), w);
    assert twins[id := ReturnFree][id := TestResume] == twins[id := TestResume];
  }

  /** What has become of a worker that both threads have served and parked. */
  function ParkedTwice(w: Worker): Worker
    requires w.socket.Some?
  {
    w.(state := SLEEP_WAIT, pc := TestResume, served := w.served + [w.socket.value])
  }

  /** A worker at the test of OnWorkComplete, with nothing pending, and its second thread at its start: some schedule of
      the two lists the worker free twice. */
  lemma ListsTwice(s: State, twins: map<nat, WorkerPc>, id: nat, start: Program) returns (q: Program)
    requires BetweenEvents(s) && id < |s.workers| && s.pending == [] && id in twins && twins[id] == TestResume
    requires s.workers[id].pc == CheckCount && s.workers[id].socket.Some? && Runs(start, Program(s, twins), true)
    ensures Runs(start, q, true) && q.twins == twins
    ensures q.s == Put(s, id, ParkedTwice(s.workers[id])).(free := s.free + [id, id])
  {
    var w, free := s.workers[id], s.free;
    assert w.state == RESUME by { assert WorkerInv(w, Uninvolved, id in free); }
    assert Here(s, twins, id, w, TestResume, free) == Program(s, twins);
    TwinComesToPark(s, twins, id, w, free, start);
    var v := w.(pc := WriteSleep, served := w.served + [w.socket.value]);
    OwnMoves(s, twins, id, v.(pc := CheckCount), WriteSleep, free, start, v);
    BothPark(s, twins, id, v, free, start);
    q := Program(Put(s, id, ParkedTwice(w)).(free := free + [id, id]), twins);
    assert twins[id := TestResume] == twins;
  }

  lemma TwinComesToPark(s: State, twins: map<nat, WorkerPc>, id: nat, w: Worker, free: seq<nat>, start: Program)
    requires id < |s.workers| && !s.undefined && s.pending == [] && InService(w) && w.socket.Some?
    requires Runs(start, Here(s, twins, id, w, TestResume, free), true)
    ensures Runs(start, Here(s, twins, id, w.(served := w.served + [w.socket.value]), WriteSleep, free), true)
  {
    var v := w.(served := w.served + [w.socket.value]);
    TwinMovesHere(s, twins, id, w, TestResume, free, start, w.(pc := LoadSocket));
    TwinMovesHere(s, twins, id, w, LoadSocket, free, start, v.(pc := Receiving));
    TwinMovesHere(s, twins, id, v, Receiving, free, start, v.(pc := CheckCount));
    TwinMovesHere(s, twins, id, v, CheckCount, free, start, v.(pc := WriteSleep));
  }

  lemma BothPark(s: State, twins: map<nat, WorkerPc>, id: nat, v: Worker, free: seq<nat>, start: Program)
    requires id < |s.workers| && !s.undefined && v.pc == WriteSleep
    requires Runs(start, Here(s, twins, id, v, WriteSleep, free), true)
    ensures var w := v.(state := SLEEP_WAIT, pc := TestResume);
      Runs(start, Here(s, twins, id, w, TestResume, free + [id, id]), true)
  {
    var u := v.(state := SLEEP_WAIT, pc := ReturnFree);
    OwnMoves(s, twins, id, v, WriteSleep, free, start, u);
    TwinMovesHere(s, twins, id, u, WriteSleep, free, start, u);
    OwnReturns(s, twins, id, u, ReturnFree, free, start);
    TwinReturns(s, twins, id, u.(pc := TestResume), free + [id], start);
    assert free + [id] + [id] == free + [id, id];
  }

  // ---------------------------------------------------------------- a lost event

  /** No thread has called ReceiveData on the socket, and none will for what has happened so far: it is in no slot, not
      pending, and not in the dispatcher's hand. */
  predicate Absent(s: State, item: Socket) {
    && (forall j :: 0 <= j < |s.workers| ==> s.workers[j].socket != Some(item) && item !in s.workers[j].served)
    && item !in s.pending
    && (Deciding(s.dpc) || s.dpc.SetSocket? ==> s.dpc.item != item)
  }

  lemma ThreadKeepsAbsent(w: Worker, pending: seq<Socket>, item: Socket)
    requires w.socket != Some(item) && item !in w.served && item !in pending && RunThread(w, pending).Some?
    ensures var o := RunThread(w, pending).value;
      !o.Undefined? ==> o.w.socket != Some(item) && item !in o.w.served
  {
  }

  lemma WorkerKeepsAbsent(s: State, id: nat, item: Socket)
    requires Absent(s, item) && id < |s.workers| && WorkerStep(s, id).Some?
    ensures Absent(WorkerStep(s, id).value, item)
  {
    ThreadKeepsAbsent(s.workers[id], s.pending, item);
  }

  lemma DispatcherKeepsAbsent(s: State, item: Socket)
    requires Absent(s, item) && DispatcherStep(s).Some?
    ensures Absent(DispatcherStep(s).value, item)
  {
  }

  lemma StepKeepsAbsent(p: Program, step: ProgramStep, item: Socket)
    requires Absent(p.s, item) && ProgramNext(p, step).Some? && step != Single(Dispatch(item))
    ensures Absent(ProgramNext(p, step).value.s, item)
  {
    match step
    case Single(single) =>
      if single.WorkerMoves? { WorkerKeepsAbsent(p.s, single.id, item); }
      if single.DispatcherMoves? { DispatcherKeepsAbsent(p.s, item); }
    case TwinMoves(id) => WorkerKeepsAbsent(Put(p.s, id, p.s.workers[id].(pc := p.twins[id])), id, item);
    case _ =>
  }

  /** A socket that is lost stays so, until another event for it. */
  lemma {:induction false} LostStaysLost(p: Program, steps: seq<ProgramStep>, item: Socket)
    requires Absent(p.s, item) && ProgramExec(p, steps).Some? && Single(Dispatch(item)) !in steps
    ensures Absent(ProgramExec(p, steps).value.s, item)
    decreases |steps|
  {
    if steps != [] {
      StepKeepsAbsent(p, steps[0], item);
      LostStaysLost(ProgramNext(p, steps[0]).value, steps[1..], item);
    }
  }

  lemma {:induction false} GivenInAll(ws: seq<Worker>, id: nat)
    requires id < |ws|
    ensures multiset(ws[id].given) <= AllGiven(ws)
  {
    if id < |ws| - 1 { GivenInAll(ws[..|ws| - 1], id); }
  }

  /** What was never dispatched is absent. */
  lemma NeverDispatched(s: State, item: Socket)
    requires Reachable(s) && item !in s.dispatched
    ensures Absent(s, item)
  {
    ReachableInv(s);
    NoWorkLost(s);
    assert multiset(s.dispatched)[item] == 0;
    forall j | 0 <= j < |s.workers|
      ensures s.workers[j].socket != Some(item) && item !in s.workers[j].served
    {
      GivenInAll(s.workers, j);
      assert WorkerInv(s.workers[j], RoleOf(s.dpc, j), j in s.free);
      assert item !in multiset(s.workers[j].given);
    }
  }

  lemma {:induction false} UnusedItem(items: seq<int>) returns (bound: int)
    ensures forall i :: 0 <= i < |items| ==> items[i] < bound
  {
    bound := 0;
    if items != [] {
      var n := |items| - 1;
      bound := UnusedItem(items[..n]);
      if bound <= items[n] { bound := items[n] + 1; }
    }
  }

  /** Two events in a row go to a worker that is listed free twice: the second is written over the first. */
  lemma SlotOverwritten(s: State, id: nat, a: Socket, b: Socket) returns (t: State)
    requires s.dpc == Idle && !s.undefined && s.free == [id, id] && id < |s.workers|
    requires s.workers[id].lock == Nobody && s.workers[id].pc == TestResume && Absent(s, a) && a != b
    ensures Takes(s, t) && a in t.dispatched && Absent(t, a) && t.dpc == Idle
  {
    TakesSelf(s);
    var u := SerialAssign(s, s, a);
    u := SerialResume(s, u);
    t := SerialAssign(s, u, b);
    t := SerialResume(s, t);
    var w := s.workers[id];
    assert t.workers == s.workers[id := w.(state := RESUME, socket := Some(b), given := w.given + [a] + [b])];
    assert t.dispatched == s.dispatched + [a] + [b];
  }

  lemma RecordReached(s: State, t: State)
    requires Reachable(s) && !s.undefined && s.dpc.RecordBusy? && Next(s, DispatcherMoves) == Some(t)
    ensures Reachable(t) && BetweenEvents(t) && t.workers == s.workers && t.free == s.free && t.pending == s.pending
  {
    ReachableInv(s);
    NextKeepsInv(s, DispatcherMoves);
    TakesSelf(s);
    TakesNext(s, s, DispatcherMoves);
    ReachableThen(s, t);
  }

  lemma RunsOn(p: Program, q: Program, r: Program)
    requires Runs(p, q, false) && Runs(q, r, true)
    ensures Runs(p, r, false)
  {
    var a: seq<ProgramStep> :| ProgramExec(p, a) == Some(q);
    var b: seq<ProgramStep> :| ProgramExec(q, b) == Some(r);
    ExecutesOn(p, a, b);
  }

  lemma ExecutesOn(p: Program, a: seq<ProgramStep>, b: seq<ProgramStep>)
    requires ProgramExec(p, a).Some?
    ensures ProgramExec(p, a + b) == ProgramExec(ProgramExec(p, a).value, b)
  {
    Schedules.RunAppend(ProgramNext, p, a, b);
  }

  lemma StillAbsent(s: State, t: State, id: nat, item: Socket)
    requires Absent(s, item) && id < |s.workers| && s.workers[id].socket.Some?
    requires t == Put(s, id, ParkedTwice(s.workers[id])).(free := s.free + [id, id])
    ensures Absent(t, item)
  {
  }
}
