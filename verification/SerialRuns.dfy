/**
 The pool of module Pool is what the threads of module WorkerThreads do when they do not race: every run of
 the pool is a schedule of the threads in which each dispatch, and each OnWorkComplete, runs to its end alone.
 */
module SerialRuns {
  import opened Common
  import Schedules
  import opened WorkerThreads
  import opened Handshake
  import opened CompletionRaces
  import Pool

  /** Some schedule leads from s to t. */
  ghost predicate Takes(s: State, t: State) {
    exists steps: seq<Step> :: Exec(s, steps) == Some(t)
  }

  lemma TakesSelf(s: State)
    ensures Takes(s, s)
  {
    assert Exec(s, []) == Some(s);
  }

  lemma TakesThen(s: State, t: State, u: State)
    requires Takes(s, t) && Takes(t, u)
    ensures Takes(s, u)
  {
    var a: seq<Step> :| Exec(s, a) == Some(t);
    var b: seq<Step> :| Exec(t, b) == Some(u);
    Schedules.RunAppend(Next, s, a, b);
    assert Exec(s, a + b) == Some(u);
  }

  lemma TakesNext(s: State, t: State, step: Step)
    requires Takes(s, t) && Next(t, step).Some?
    ensures Takes(s, Next(t, step).value)
  {
    var steps: seq<Step> :| Exec(s, steps) == Some(t);
    Schedules.RunThen(Next, s, steps, step);
    assert Exec(s, steps + [step]) == Next(t, step);
  }

  lemma ReachesTakes(s: State, t: State)
    requires Reaches(s, t)
    ensures Takes(s, t)
  {
  }

  // ---------------------------------------------------------------- the pool that a state stands for

  function Last(items: seq<Socket>): Socket
    requires items != []
  {
    items[|items| - 1]
  }

  /** The socket each worker in service was last given. */
  function Serving(ws: seq<Worker>): map<nat, Socket> {
    map id: nat | id < |ws| && InService(ws[id]) && ws[id].given != [] :: Last(ws[id].given)
  }

  function PoolOf(s: State): Pool.Pool<Socket> {
    Pool.Pool(|s.workers|, s.free, s.busy, s.pending, Serving(s.workers), s.handed, s.dispatched)
  }

  lemma ServingAfter(ws: seq<Worker>, id: nat, w: Worker)
    requires id < |ws|
    ensures Serving(ws[id := w]) ==
      if InService(w) && w.given != [] then Serving(ws)[id := Last(w.given)] else Serving(ws) - {id}
  {
  }

  lemma ServingUnchanged(ws: seq<Worker>, id: nat, w: Worker)
    requires id < |ws| && w.given == ws[id].given && InService(w) == InService(ws[id])
    ensures Serving(ws[id := w]) == Serving(ws)
  {
  }

  lemma ServingOneMore(ws: seq<Worker>)
    ensures Serving(ws + [NEW_WORKER]) == Serving(ws)
  {
  }

  /** Not inside Pause's critical section, and not inside OnWorkComplete past its test. */
  predicate AtRest(w: Worker) {
    w.lock == Nobody && !(w.pc.WriteResume? || w.pc.PopItem? || w.pc.WriteSleep? || w.pc.ReturnFree?)
  }

  predicate Quiet(s: State) {
    BetweenEvents(s) && forall id :: 0 <= id < |s.workers| ==> AtRest(s.workers[id])
  }

  // ---------------------------------------------------------------- a dispatch that runs alone

  /** The dispatcher has an event and has found a worker for it. */
  lemma SerialAssign(start: State, s: State, item: Socket) returns (t: State)
    requires Takes(start, s) && s.dpc == Idle && !s.undefined
    ensures Takes(start, t)
    ensures t == (
      if s.free != [] then
        s.(free := s.free[1..], busy := s.busy + [s.free[0]], dpc := SetSocket(item, s.free[0], false))
      else if |s.workers| < MAX_WORKER_THREADS then
        s.(workers := s.workers + [NEW_WORKER], dpc := SetSocket(item, |s.workers|, true))
      else
        s.(dpc := PushItem(item))
      ).(dispatched := s.dispatched + [item])
  {
    TakesNext(start, s, Dispatch(item));
    t := Next(s, Dispatch(item)).value;
    TakesNext(start, t, DispatcherMoves);
    t := Next(t, DispatcherMoves).value;
    if s.free == [] {
      TakesNext(start, t, DispatcherMoves);
      t := Next(t, DispatcherMoves).value;
    }
  }

  lemma SerialHandOff(start: State, s: State, w: Worker, d: DispatcherPc) returns (t: State)
    requires Takes(start, s) && !s.undefined && HandsOff(s.dpc) && s.dpc.id < |s.workers|
    requires HandOff(s.dpc, s.workers[s.dpc.id]) == Some((w, d))
    ensures Takes(start, t)
    ensures t == Put(s, s.dpc.id, w).(
      dpc := d, handed := if s.dpc.SetSocket? then s.handed + [s.dpc.item] else s.handed)
  {
    TakesNext(start, s, DispatcherMoves);
    t := Next(s, DispatcherMoves).value;
  }

  /** What a worker is when the dispatcher has written its socket and resumed it. */
  function Resumed(w: Worker, item: Socket): Worker {
    Wake(w.(state := RESUME, socket := Some(item), given := w.given + [item]))
  }

  lemma SerialResume(start: State, s: State) returns (t: State)
    requires Takes(start, s) && !s.undefined && s.dpc.SetSocket? && s.dpc.id < |s.workers|
    requires s.workers[s.dpc.id].lock == Nobody
    ensures Takes(start, t)
    ensures t == Put(s, s.dpc.id, Resumed(s.workers[s.dpc.id], s.dpc.item)).(
      dpc := if s.dpc.grown then RecordBusy(s.dpc.id) else Idle, handed := s.handed + [s.dpc.item])
  {
    var id, g, item := s.dpc.id, s.dpc.grown, s.dpc.item;
    var w := s.workers[id].(socket := Some(item), given := s.workers[id].given + [item]);
    t := SerialHandOff(start, s, w, ResumeLock(id, g));
    t := SerialSignal(start, t);
    assert s.workers[id := w][id := Resumed(s.workers[id], item)] == s.workers[id := Resumed(s.workers[id], item)];
  }

  lemma SerialSignal(start: State, s: State) returns (t: State)
    requires Takes(start, s) && !s.undefined && s.dpc.ResumeLock? && s.dpc.id < |s.workers|
    requires s.workers[s.dpc.id].lock == Nobody
    ensures Takes(start, t)
    ensures t == Put(s, s.dpc.id, Wake(s.workers[s.dpc.id].(state := RESUME))).(
      dpc := if s.dpc.grown then RecordBusy(s.dpc.id) else Idle)
  {
    var id, g := s.dpc.id, s.dpc.grown;
    var w := s.workers[id].(lock := ByDispatcher);
    t := SerialHandOff(start, s, w, ResumeWrite(id, g));
    t := SerialHandOff(start, t, w.(state := RESUME), ResumeSignal(id, g));
    t := SerialHandOff(start, t, Wake(w.(state := RESUME)), ResumeUnlock(id, g));
    t := SerialHandOff(start, t, Wake(w.(state := RESUME)).(lock := Nobody), if g then RecordBusy(id) else Idle);
  }

  /** The worker is found and resumed, and the busy list written. */
  lemma SerialStart(start: State, s: State) returns (t: State)
    requires Takes(start, s) && Inv(s) && !s.undefined && s.dpc.SetSocket?
    requires forall j :: 0 <= j < |s.workers| ==> AtRest(s.workers[j])
    ensures Takes(start, t) && Quiet(t) && s.dpc.id < |s.workers|
    ensures t == Put(s, s.dpc.id, Resumed(s.workers[s.dpc.id], s.dpc.item)).(
      dpc := Idle, handed := s.handed + [s.dpc.item], busy := if s.dpc.grown then s.busy + [s.dpc.id] else s.busy)
  {
    TakesSelf(s);
    var u := SerialResume(s, s);
    t := SerialRecord(s, u);
    TakesKeepsInv(s, t);
    TakesThen(start, s, t);
    AllAtRest(s.workers, s.dpc.id, s.dpc.item, t.workers);
  }

  lemma AllAtRest(ws: seq<Worker>, id: nat, item: Socket, ws': seq<Worker>)
    requires id < |ws| && ws' == ws[id := Resumed(ws[id], item)] && forall j :: 0 <= j < |ws| ==> AtRest(ws[j])
    ensures forall j :: 0 <= j < |ws'| ==> AtRest(ws'[j])
  {
  }

  lemma SerialRecord(start: State, s: State) returns (t: State)
    requires Takes(start, s) && !s.undefined && (s.dpc == Idle || s.dpc.RecordBusy?)
    ensures Takes(start, t)
    ensures t == s.(dpc := Idle, busy := if s.dpc.RecordBusy? then s.busy + [s.dpc.id] else s.busy)
  {
    t := s;
    if s.dpc.RecordBusy? {
      TakesNext(start, s, DispatcherMoves);
      t := Next(s, DispatcherMoves).value;
    }
  }

  lemma SerialDispatch(s: State, item: Socket) returns (t: State)
    requires Quiet(s)
    ensures Takes(s, t) && Quiet(t) && PoolOf(t) == Pool.DispatchOne(PoolOf(s), item)
  {
    TakesSelf(s);
    var u := SerialAssign(s, s, item);
    TakesKeepsInv(s, u);
    if u.dpc.SetSocket? {
      t := SerialStart(s, u);
      StartsInPool(s, u, t, item);
    } else {
      t := SerialPush(s, u);
    }
  }

  lemma StartsInPool(s: State, u: State, t: State, item: Socket)
    requires u.dpc.SetSocket? && u.dpc.item == item && u.dpc.id < |u.workers|
    requires u.workers == (if s.free != [] then s.workers else s.workers + [NEW_WORKER])
    requires u.dpc.id == (if s.free != [] then s.free[0] else |s.workers|) && u.dpc.grown == (s.free == [])
    requires s.free == [] ==> |s.workers| < MAX_WORKER_THREADS
    requires t.workers == u.workers[u.dpc.id := Resumed(u.workers[u.dpc.id], item)]
    requires t.free == (if s.free != [] then s.free[1..] else []) && t.busy == s.busy + [u.dpc.id]
    requires t.pending == s.pending && t.handed == s.handed + [item] && t.dispatched == s.dispatched + [item]
    ensures PoolOf(t) == Pool.DispatchOne(PoolOf(s), item)
  {
    ServingOneMore(s.workers);
    ServingAfter(u.workers, u.dpc.id, Resumed(u.workers[u.dpc.id], item));
  }

  lemma SerialPush(start: State, s: State) returns (t: State)
    requires Takes(start, s) && Inv(s) && !s.undefined && s.dpc.PushItem?
    ensures Takes(start, t) && BetweenEvents(t)
    ensures t == s.(dpc := Idle, pending := s.pending + [s.dpc.item], pushed := s.pushed + [s.dpc.item])
  {
    TakesNext(start, s, DispatcherMoves);
    NextKeepsInv(s, DispatcherMoves);
    t := Next(s, DispatcherMoves).value;
  }

  lemma TakesKeepsInv(s: State, t: State)
    requires Inv(s) && Takes(s, t)
    ensures Inv(t)
  {
    var steps: seq<Step> :| Exec(s, steps) == Some(t);
    ExecKeepsInv(s, steps);
  }

  // ---------------------------------------------------------------- a completion that runs alone

  lemma SerialMove(start: State, s: State, id: nat, w: Worker)
    requires Takes(start, s) && BetweenEvents(s) && id < |s.workers|
    requires RunThread(s.workers[id], s.pending) == Some(Moves(w))
    ensures Takes(start, Put(s, id, w)) && BetweenEvents(Put(s, id, w))
  {
    MoveAlone(s, id, w);
    ReachesTakes(s, Put(s, id, w));
    TakesThen(start, s, Put(s, id, w));
  }

  lemma PutTwice(s: State, id: nat, v: Worker, w: Worker)
    requires id < |s.workers|
    ensures Put(Put(s, id, v), id, w) == Put(s, id, w)
  {
    assert s.workers[id := v][id := w] == s.workers[id := w];
  }

  /** A worker's second step in a row. */
  lemma SerialMoveAgain(start: State, s: State, id: nat, v: Worker, w: Worker)
    requires id < |s.workers| && Takes(start, Put(s, id, v)) && BetweenEvents(Put(s, id, v))
    requires RunThread(v, s.pending) == Some(Moves(w))
    ensures Takes(start, Put(s, id, w)) && BetweenEvents(Put(s, id, w))
  {
    SerialMove(start, Put(s, id, v), id, w);
    PutTwice(s, id, v, w);
  }

  /** OnWorkComplete from its test to its end, all other threads standing still. */
  lemma SerialComplete(s: State, id: nat) returns (t: State)
    requires Quiet(s) && id < |s.workers| && s.workers[id].pc == CheckCount
    ensures Takes(s, t) && Quiet(t) && PoolOf(t) == Pool.CompleteOne(PoolOf(s), id)
  {
    if s.pending != [] { t := SerialKeep(s, id); } else { t := SerialPark(s, id); }
    ServingAfter(s.workers, id, t.workers[id]);
  }

  lemma SerialKeep(s: State, id: nat) returns (t: State)
    requires Quiet(s) && id < |s.workers| && s.workers[id].pc == CheckCount && s.pending != []
    ensures Takes(s, t) && Quiet(t) && |t.workers| == |s.workers|
    ensures var item := s.pending[0];
      && t == Put(s, id, t.workers[id]).(
        pending := s.pending[1..], popped := s.popped + [item], handed := s.handed + [item])
      && InService(t.workers[id]) && t.workers[id].given == s.workers[id].given + [item]
  {
    TakesSelf(s);
    var w := s.workers[id];
    assert WorkerInv(w, Uninvolved, id in s.free);
    SerialMove(s, s, id, w.(pc := WriteResume));
    SerialMoveAgain(s, s, id, w.(pc := WriteResume), w.(pc := PopItem));
    t := SerialPop(s, s, id, w.(pc := PopItem));
    StaysQuiet(s, t, id);
  }

  lemma SerialPark(s: State, id: nat) returns (t: State)
    requires Quiet(s) && id < |s.workers| && s.workers[id].pc == CheckCount && s.pending == []
    ensures Takes(s, t) && Quiet(t) && |t.workers| == |s.workers|
    ensures t == Put(s, id, t.workers[id]).(free := s.free + [id]) && !InService(t.workers[id])
  {
    TakesSelf(s);
    var w := s.workers[id];
    assert WorkerInv(w, Uninvolved, id in s.free);
    SerialMove(s, s, id, w.(pc := WriteSleep));
    var v := w.(pc := ReturnFree, state := SLEEP_WAIT);
    SerialMoveAgain(s, s, id, w.(pc := WriteSleep), v);
    t := SerialReturn(s, s, id, v);
    StaysQuiet(s, t, id);
  }

  lemma StaysQuiet(s: State, t: State, id: nat)
    requires Quiet(s) && BetweenEvents(t) && id < |s.workers| && |t.workers| == |s.workers| && AtRest(t.workers[id])
    requires t.workers == s.workers[id := t.workers[id]]
    ensures Quiet(t)
  {
  }

  lemma SerialPop(start: State, s: State, id: nat, w: Worker) returns (t: State)
    requires id < |s.workers| && Takes(start, Put(s, id, w)) && BetweenEvents(Put(s, id, w))
    requires w.pc == PopItem && s.pending != []
    ensures Takes(start, t) && BetweenEvents(t)
    ensures var item := s.pending[0];
      t == Put(s, id, w.(socket := Some(item), given := w.given + [item], pc := TestResume)).(
        pending := s.pending[1..], popped := s.popped + [item], handed := s.handed + [item])
  {
    TakesNext(start, Put(s, id, w), WorkerMoves(id));
    NextKeepsInv(Put(s, id, w), WorkerMoves(id));
    t := Next(Put(s, id, w), WorkerMoves(id)).value;
    PutTwice(s, id, w, t.workers[id]);
  }

  lemma SerialReturn(start: State, s: State, id: nat, w: Worker) returns (t: State)
    requires id < |s.workers| && Takes(start, Put(s, id, w)) && BetweenEvents(Put(s, id, w)) && w.pc == ReturnFree
    ensures Takes(start, t) && BetweenEvents(t)
    ensures t == Put(s, id, w.(pc := TestResume)).(free := s.free + [id])
  {
    TakesNext(start, Put(s, id, w), WorkerMoves(id));
    NextKeepsInv(Put(s, id, w), WorkerMoves(id));
    t := Next(Put(s, id, w), WorkerMoves(id)).value;
    PutTwice(s, id, w, t.workers[id]);
  }

  /** One step of a worker in service towards the test of OnWorkComplete. */
  lemma TowardsTest(w: Worker, listed: bool, pending: seq<Socket>)
    requires WorkerInv(w, Uninvolved, listed) && InService(w) && w.pc != CheckCount
    requires !w.pc.WriteResume? && !w.pc.PopItem? && !w.pc.WriteSleep?
    ensures RunThread(w, pending).Some? && RunThread(w, pending).value.Moves?
    ensures var w' := RunThread(w, pending).value.w;
      && InService(w') && w'.given == w.given && StepsToPop(w'.pc) < StepsToPop(w.pc)
      && !w'.pc.WriteResume? && !w'.pc.PopItem? && !w'.pc.WriteSleep?
  {
  }

  /** A worker in service, left alone, comes to the test of OnWorkComplete, and the pool looks the same. */
  lemma {:induction false} BringToTest(start: State, s: State, id: nat) returns (t: State)
    requires Takes(start, s) && BetweenEvents(s) && id < |s.workers| && InService(s.workers[id])
    requires !s.workers[id].pc.WriteResume? && !s.workers[id].pc.PopItem? && !s.workers[id].pc.WriteSleep?
    requires forall j :: 0 <= j < |s.workers| && j != id ==> AtRest(s.workers[j])
    ensures Takes(start, t) && Quiet(t) && PoolOf(t) == PoolOf(s)
    ensures |t.workers| == |s.workers| && t.workers[id].pc == CheckCount
    ensures forall j :: 0 <= j < |s.workers| && j != id ==> t.workers[j] == s.workers[j]
    decreases StepsToPop(s.workers[id].pc)
  {
    var w := s.workers[id];
    assert WorkerInv(w, Uninvolved, id in s.free);
    t := s;
    if w.pc != CheckCount {
      TowardsTest(w, id in s.free, s.pending);
      var w' := RunThread(w, s.pending).value.w;
      SerialMove(start, s, id, w');
      ServingUnchanged(s.workers, id, w');
      t := BringToTest(start, Put(s, id, w'), id);
    }
  }

  // ---------------------------------------------------------------- whole runs

  lemma SerialAddOne(start: State, s: State) returns (t: State)
    requires Takes(start, s) && Quiet(s)
    ensures Takes(start, t) && Quiet(t)
    ensures t == s.(workers := s.workers + [NEW_WORKER], free := s.free + [|s.workers|])
  {
    TakesNext(start, s, AddWorker);
    NextKeepsInv(s, AddWorker);
    t := Next(s, AddWorker).value;
  }

  lemma {:induction false} SerialAdd(start: State, s: State, count: nat) returns (t: State)
    requires Takes(start, s) && Quiet(s)
    ensures Takes(start, t) && Quiet(t) && PoolOf(t) == Pool.AddSome(PoolOf(s), count)
    decreases count
  {
    if count == 0 {
      t := s;
      assert s.free + Pool.Range(|s.workers|, 0) == s.free;
    } else {
      var u := SerialAdd(start, s, count - 1);
      t := SerialAddOne(start, u);
      ServingOneMore(u.workers);
      AddOneMore(PoolOf(s), PoolOf(u), PoolOf(t), count);
    }
  }

  lemma AddOneMore(p: Pool.Pool<Socket>, q: Pool.Pool<Socket>, r: Pool.Pool<Socket>, count: nat)
    requires count > 0 && q == Pool.AddSome(p, count - 1) && r == q.(total := q.total + 1, free := q.free + [q.total])
    ensures r == Pool.AddSome(p, count)
  {
  }

  lemma SerialStep(s: State, op: Pool.Op<Socket>) returns (t: State)
    requires Quiet(s) && Pool.Enabled(PoolOf(s), op)
    ensures Takes(s, t) && Quiet(t) && PoolOf(t) == Pool.Step(PoolOf(s), op)
  {
    TakesSelf(s);
    match op
    case Dispatch(item) => t := SerialDispatch(s, item);
    case Complete(id) =>
      var u := BringToTest(s, s, id);
      t := SerialComplete(u, id);
      TakesThen(s, u, t);
    case Add(count) => t := SerialAdd(s, s, count);
  }

  lemma {:induction false} SerialRun(s: State, ops: seq<Pool.Op<Socket>>) returns (t: State)
    requires Quiet(s) && Pool.EnabledRun(PoolOf(s), ops)
    ensures Takes(s, t) && Quiet(t) && PoolOf(t) == Pool.Run(PoolOf(s), ops)
    decreases |ops|
  {
    TakesSelf(s);
    t := s;
    if ops != [] {
      var u := SerialStep(s, ops[0]);
      t := SerialRun(u, ops[1..]);
      TakesThen(s, u, t);
    }
  }

  /** Every run of the pool is a run of the threads. */
  lemma PoolRunsAreThreadRuns(ops: seq<Pool.Op<Socket>>) returns (t: State)
    requires Pool.EnabledRun(Pool.New<Socket>(), ops)
    ensures Reachable(t) && Quiet(t) && PoolOf(t) == Pool.Run(Pool.New<Socket>(), ops)
  {
    InitInv();
    assert PoolOf(Init()) == Pool.New<Socket>() by {
      assert Init().free == [] + Pool.Range(0, INITIAL_WORKERS);
    }
    t := SerialRun(Init(), ops);
  }
}
