/**
 The threads of module WorkerThreads refine the pool of module Pool, as long as nobody acts on a test that no longer
 holds: a step that follows a test of the free list or of the queue, without a lock over both, finds what the test
 found. Every such run is a run of the pool, whatever the interleaving; and any other step is none of the pool.
 */
module Refinement {
  import opened Common
  import opened WorkerThreads
  import opened Handshake
  import opened SerialRuns
  import Pool

  // ---------------------------------------------------------------- the pool that a state stands for

  /** The socket that a worker works on, or is about to: from the moment it is taken by the dispatcher to the
      moment it is back on the free list. */
  function WorksOn(w: Worker, d: DispatcherPc, id: nat): Option<Socket> {
    if d.SetSocket? && d.id == id then Some(d.item)
    else if (Held(RoleOf(d, id)) || InService(w) || Parking(w)) && w.given != [] then Some(Last(w.given))
    else None
  }

  function AtWork(ws: seq<Worker>, d: DispatcherPc): map<nat, Socket> {
    map id: nat | id < |ws| && WorksOn(ws[id], d, id).Some? :: WorksOn(ws[id], d, id).value
  }

  /** A grown worker that is still to be put on the busy list. */
  function Unrecorded(d: DispatcherPc): seq<nat> {
    if (HandsOff(d) && d.grown) || d.RecordBusy? then [d.id] else []
  }

  /** The events that the dispatcher has decided on. */
  function Decided(s: State): seq<Socket> {
    if Deciding(s.dpc) && s.dispatched != [] then s.dispatched[..|s.dispatched| - 1] else s.dispatched
  }

  function Handed(s: State): seq<Socket> {
    if s.dpc.SetSocket? then s.handed + [s.dpc.item] else s.handed
  }

  /** The pool as it is when every decision that was taken is carried out, and none other. */
  function Abstract(s: State): Pool.Pool<Socket> {
    Pool.Pool(|s.workers|, s.free, s.busy + Unrecorded(s.dpc), s.pending, AtWork(s.workers, s.dpc),
              Handed(s), Decided(s))
  }

  /** What a step is to the pool; most steps are nothing to it. */
  function OpOf(s: State, step: Step): Option<Pool.Op<Socket>> {
    match step
    case Dispatch(_) => None
    case AddWorker => Some(Pool.Add(1))
    case DispatcherMoves =>
      match s.dpc {
        case GetFree(item) => if s.free != [] then Some(Pool.Dispatch(item)) else None
        case TestLimit(item) => if |s.workers| < MAX_WORKER_THREADS then Some(Pool.Dispatch(item)) else None
        case PushItem(item) => Some(Pool.Dispatch(item))
        case _ => None
      }
    case WorkerMoves(id) =>
      if id < |s.workers| && (s.workers[id].pc == PopItem || s.workers[id].pc == ReturnFree) then
        Some(Pool.Complete(id))
      else None
    case SpuriousWakeup(_) => None
  }

  /** A step that acts on an earlier test finds what the test found: no worker free when the dispatcher grows the pool
      or queues an item, an item to pop, and no item pending when a worker is returned. Workers are added while
      nothing is pending. */
  predicate Timely(s: State, step: Step) {
    match step
    case AddWorker => s.pending == []
    case DispatcherMoves =>
      (s.dpc.TestLimit? && |s.workers| < MAX_WORKER_THREADS) || s.dpc.PushItem? ==> s.free == []
    case WorkerMoves(id) =>
      id < |s.workers| ==>
        && (s.workers[id].pc == PopItem ==> s.pending != [])
        && (s.workers[id].pc == ReturnFree ==> s.pending == [])
    case _ => true
  }

  function After(p: Pool.Pool<Socket>, op: Option<Pool.Op<Socket>>): Pool.Pool<Socket> {
    if op.None? then p else Pool.Step(p, op.value)
  }

  /** A step is, to the pool, the given operation or nothing. */
  predicate Acts(s: State, t: State, op: Option<Pool.Op<Socket>>) {
    && !t.undefined
    && (op.Some? ==> Pool.Enabled(Abstract(s), op.value))
    && Abstract(t) == After(Abstract(s), op)
  }

  // ---------------------------------------------------------------- who is at work

  lemma SameAtWork(ws: seq<Worker>, d: DispatcherPc, ws': seq<Worker>, d': DispatcherPc)
    requires |ws| == |ws'| && forall id :: 0 <= id < |ws| ==> WorksOn(ws[id], d, id) == WorksOn(ws'[id], d', id)
    ensures AtWork(ws, d) == AtWork(ws', d')
  {
  }

  lemma AtWorkUpdate(ws: seq<Worker>, d: DispatcherPc, id: nat, w: Worker)
    requires id < |ws|
    ensures AtWork(ws[id := w], d) ==
      if WorksOn(w, d, id).Some? then AtWork(ws, d)[id := WorksOn(w, d, id).value] else AtWork(ws, d) - {id}
  {
  }

  lemma AtWorkTaken(ws: seq<Worker>, d: DispatcherPc, id: nat, item: Socket, grown: bool)
    requires id < |ws| && !HandsOff(d)
    ensures AtWork(ws, SetSocket(item, id, grown)) == AtWork(ws, d)[id := item]
  {
  }

  lemma AtWorkOneMore(ws: seq<Worker>, d: DispatcherPc)
    requires !HandsOff(d)
    ensures AtWork(ws + [NEW_WORKER], d) == AtWork(ws, d)
  {
  }

  // ---------------------------------------------------------------- the dispatcher's steps

  lemma HandOffActs(s: State)
    requires Inv(s) && !s.undefined && HandsOff(s.dpc) && HandOffStep(s).Some?
    ensures Acts(s, HandOffStep(s).value, None)
  {
    HandOffKeepsAtWork(s);
    var t := HandOffStep(s).value;
    assert Handed(t) == Handed(s) && s.busy + Unrecorded(s.dpc) == t.busy + Unrecorded(t.dpc);
  }

  lemma HandOffKeepsAtWork(s: State)
    requires Inv(s) && HandsOff(s.dpc) && HandOffStep(s).Some?
    ensures AtWork(HandOffStep(s).value.workers, HandOffStep(s).value.dpc) == AtWork(s.workers, s.dpc)
  {
    var t := HandOffStep(s).value;
    forall id | 0 <= id < |s.workers|
      ensures WorksOn(s.workers[id], s.dpc, id) == WorksOn(t.workers[id], t.dpc, id)
    {
      HandOffWorksOn(s.dpc, s.workers[s.dpc.id], s.dpc.id in s.free, id);
    }
    SameAtWork(s.workers, s.dpc, t.workers, t.dpc);
  }

  lemma HandOffWorksOn(d: DispatcherPc, w: Worker, listed: bool, id: nat)
    requires HandsOff(d) && WorkerInv(w, RoleOf(d, d.id), listed) && HandOff(d, w).Some?
    ensures var (w', d') := HandOff(d, w).value;
      if id == d.id then WorksOn(w', d', id) == WorksOn(w, d, id)
      else forall v :: WorksOn(v, d', id) == WorksOn(v, d, id)
  {
  }

  lemma TakeActs(s: State)
    requires Inv(s) && !s.undefined && s.dpc.GetFree? && s.free != []
    ensures Acts(s, AssignStep(s).value, Some(Pool.Dispatch(s.dpc.item)))
  {
    AtWorkTaken(s.workers, s.dpc, s.free[0], s.dpc.item, false);
    assert s.dispatched == Decided(s) + [s.dpc.item];
  }

  lemma GrowActs(s: State)
    requires Inv(s) && !s.undefined && s.dpc.TestLimit? && |s.workers| < MAX_WORKER_THREADS && s.free == []
    ensures Acts(s, AssignStep(s).value, Some(Pool.Dispatch(s.dpc.item)))
  {
    AtWorkOneMore(s.workers, s.dpc);
    AtWorkTaken(s.workers + [NEW_WORKER], s.dpc, |s.workers|, s.dpc.item, true);
    assert s.dispatched == Decided(s) + [s.dpc.item];
  }

  lemma PushActs(s: State)
    requires Inv(s) && !s.undefined && s.dpc.PushItem? && s.free == [] && |s.workers| >= MAX_WORKER_THREADS
    ensures Acts(s, AssignStep(s).value, Some(Pool.Dispatch(s.dpc.item)))
  {
    SameAtWork(s.workers, s.dpc, s.workers, Idle);
    assert s.dispatched == Decided(s) + [s.dpc.item];
  }

  lemma OtherAssignActs(s: State)
    requires Inv(s) && !s.undefined && !HandsOff(s.dpc) && AssignStep(s).Some?
    requires OpOf(s, DispatcherMoves).None?
    ensures Acts(s, AssignStep(s).value, None)
  {
    SameAtWork(s.workers, s.dpc, s.workers, AssignStep(s).value.dpc);
  }

  // ---------------------------------------------------------------- the workers' steps

  lemma MoveActs(s: State, id: nat, w: Worker)
    requires Inv(s) && !s.undefined && id < |s.workers| && RunThread(s.workers[id], s.pending) == Some(Moves(w))
    ensures Acts(s, Next(s, WorkerMoves(id)).value, None)
  {
    assert WorkerInv(s.workers[id], RoleOf(s.dpc, id), id in s.free);
    assert Next(s, WorkerMoves(id)).value == Put(s, id, w);
    MoveWorksOn(s.workers[id], w, s.dpc, id, id in s.free, s.pending);
    SameAtWork(s.workers, s.dpc, s.workers[id := w], s.dpc);
  }

  lemma MoveWorksOn(w: Worker, w': Worker, d: DispatcherPc, id: nat, listed: bool, pending: seq<Socket>)
    requires WorkerInv(w, RoleOf(d, id), listed) && RunThread(w, pending) == Some(Moves(w'))
    ensures WorksOn(w, d, id) == WorksOn(w', d, id)
  {
  }

  lemma PopActs(s: State, id: nat)
    requires Inv(s) && !s.undefined && id < |s.workers| && s.workers[id].pc == PopItem && s.pending != []
    requires !s.dpc.SetSocket?
    ensures Acts(s, Next(s, WorkerMoves(id)).value, Some(Pool.Complete(id)))
  {
    var w, item := s.workers[id], s.pending[0];
    var w' := w.(socket := Some(item), given := w.given + [item], pc := TestResume);
    assert InService(w) && !Held(RoleOf(s.dpc, id)) && w.given != [] by {
      assert WorkerInv(w, RoleOf(s.dpc, id), id in s.free);
    }
    AtWorkUpdate(s.workers, s.dpc, id, w');
    PopKeepsAtWork(s, id, w');
  }

  lemma PopKeepsAtWork(s: State, id: nat, w: Worker)
    requires !s.undefined && id < |s.workers| && s.workers[id].pc == PopItem && s.pending != [] && !s.dpc.SetSocket?
    requires RunThread(s.workers[id], s.pending) == Some(Pops(w)) && id in AtWork(s.workers, s.dpc)
    requires AtWork(s.workers[id := w], s.dpc) == AtWork(s.workers, s.dpc)[id := s.pending[0]]
    ensures Acts(s, Next(s, WorkerMoves(id)).value, Some(Pool.Complete(id)))
  {
  }

  lemma ReturnActs(s: State, id: nat)
    requires Inv(s) && !s.undefined && id < |s.workers| && s.workers[id].pc == ReturnFree && s.pending == []
    ensures Acts(s, Next(s, WorkerMoves(id)).value, Some(Pool.Complete(id)))
  {
    var w := s.workers[id];
    assert WorkerInv(w, RoleOf(s.dpc, id), id in s.free);
    AtWorkUpdate(s.workers, s.dpc, id, w.(pc := TestResume));
  }

  lemma AddActs(s: State)
    requires Inv(s) && !s.undefined && s.dpc.Idle? && s.pending == []
    ensures Acts(s, Next(s, AddWorker).value, Some(Pool.Add(1)))
  {
    AtWorkOneMore(s.workers, s.dpc);
    assert Pool.Range(|s.workers|, 1) == [|s.workers|];
  }

  // ---------------------------------------------------------------- every timely step is one of the pool's

  /** While a worker is being given an item, or an item is about to be queued, the test that led there still holds. */
  predicate DecisionHolds(s: State) {
    && (s.dpc.SetSocket? ==> s.pending == [])
    && (s.dpc.PushItem? ==> |s.workers| >= MAX_WORKER_THREADS)
  }

  /** What a run keeps as long as every step of it is timely. */
  predicate Orderly(s: State) {
    Inv(s) && !s.undefined && Pool.Inv(Abstract(s)) && DecisionHolds(s)
  }

  lemma DispatcherActs(s: State)
    requires Orderly(s) && Timely(s, DispatcherMoves) && Next(s, DispatcherMoves).Some?
    ensures Acts(s, Next(s, DispatcherMoves).value, OpOf(s, DispatcherMoves))
  {
    if HandsOff(s.dpc) { HandOffActs(s); }
    else if OpOf(s, DispatcherMoves).None? { OtherAssignActs(s); }
    else if s.dpc.GetFree? { TakeActs(s); }
    else if s.dpc.TestLimit? { GrowActs(s); }
    else { PushActs(s); }
  }

  lemma WorkerActs(s: State, id: nat)
    requires Orderly(s) && Timely(s, WorkerMoves(id)) && Next(s, WorkerMoves(id)).Some?
    ensures Acts(s, Next(s, WorkerMoves(id)).value, OpOf(s, WorkerMoves(id)))
  {
    var w := s.workers[id];
    if w.pc == PopItem {
      assert !s.dpc.SetSocket?;
      PopActs(s, id);
    } else if w.pc == ReturnFree {
      ReturnActs(s, id);
    } else {
      OthersOnlyMove(w, RoleOf(s.dpc, id), id in s.free, s.pending);
      MoveActs(s, id, RunThread(w, s.pending).value.w);
    }
  }

  lemma OthersOnlyMove(w: Worker, role: Role, listed: bool, pending: seq<Socket>)
    requires WorkerInv(w, role, listed) && w.pc != PopItem && w.pc != ReturnFree && RunThread(w, pending).Some?
    ensures RunThread(w, pending).value.Moves?
  {
  }

  lemma WakeupActs(s: State, id: nat)
    requires Orderly(s) && id < |s.workers| && s.workers[id].pc == Blocked
    ensures Acts(s, Put(s, id, Wake(s.workers[id])), None)
  {
    SameAtWork(s.workers, s.dpc, s.workers[id := Wake(s.workers[id])], s.dpc);
  }

  lemma TimelyStepActs(s: State, step: Step)
    requires Orderly(s) && Timely(s, step) && Next(s, step).Some?
    ensures Acts(s, Next(s, step).value, OpOf(s, step))
  {
    match step
    case Dispatch(item) => SameAtWork(s.workers, s.dpc, s.workers, GetFree(item));
    case AddWorker => AddActs(s);
    case DispatcherMoves => DispatcherActs(s);
    case WorkerMoves(id) => WorkerActs(s, id);
    case SpuriousWakeup(id) => WakeupActs(s, id);
  }

  lemma ActingKeepsPool(s: State, t: State, op: Option<Pool.Op<Socket>>)
    requires Pool.Inv(Abstract(s)) && Acts(s, t, op)
    ensures Pool.Inv(Abstract(t))
  {
    if op.Some? { Pool.StepKeepsInv(Abstract(s), op.value); }
  }

  lemma StepKeepsDecision(s: State, step: Step)
    requires DecisionHolds(s) && Next(s, step).Some? && Pool.WorkConserving(Abstract(s))
    ensures DecisionHolds(Next(s, step).value)
  {
    match step
    case WorkerMoves(id) => WorkerKeepsDecision(s, id);
    case DispatcherMoves => DispatcherKeepsDecision(s);
    case _ =>
  }

  lemma WorkerKeepsDecision(s: State, id: nat)
    requires DecisionHolds(s) && id < |s.workers| && WorkerStep(s, id).Some?
    ensures DecisionHolds(WorkerStep(s, id).value)
  {
  }

  lemma DispatcherKeepsDecision(s: State)
    requires DecisionHolds(s) && DispatcherStep(s).Some? && Pool.WorkConserving(Abstract(s))
    ensures DecisionHolds(DispatcherStep(s).value)
  {
  }

  lemma TimelyStepKeepsOrder(s: State, step: Step)
    requires Orderly(s) && Timely(s, step) && Next(s, step).Some?
    ensures Orderly(Next(s, step).value)
  {
    TimelyStepActs(s, step);
    NextKeepsInv(s, step);
    ActingKeepsPool(s, Next(s, step).value, OpOf(s, step));
    StepKeepsDecision(s, step);
  }

  lemma InitIsOrderly()
    ensures Orderly(Init()) && Abstract(Init()) == Pool.New<Socket>()
  {
    InitInv();
    Pool.NewInv<Socket>();
    assert Init().free == [] + Pool.Range(0, INITIAL_WORKERS);
  }

  // ---------------------------------------------------------------- whole runs

  /** No step of the schedule acts on a test that no longer holds. */
  ghost predicate TimelyRun(s: State, steps: seq<Step>)
    decreases |steps|
  {
    steps == [] ||
      (Timely(s, steps[0]) && Next(s, steps[0]).Some? && TimelyRun(Next(s, steps[0]).value, steps[1..]))
  }

  /** What a schedule is to the pool. */
  ghost function OpsOf(s: State, steps: seq<Step>): seq<Pool.Op<Socket>>
    requires TimelyRun(s, steps)
    decreases |steps|
  {
    if steps == [] then []
    else
      (if OpOf(s, steps[0]).Some? then [OpOf(s, steps[0]).value] else []) + OpsOf(Next(s, steps[0]).value, steps[1..])
  }

  lemma {:induction false} TimelyRunActs(s: State, steps: seq<Step>)
    requires Orderly(s) && TimelyRun(s, steps)
    ensures Exec(s, steps).Some? && Orderly(Exec(s, steps).value)
    ensures Pool.EnabledRun(Abstract(s), OpsOf(s, steps))
    ensures Abstract(Exec(s, steps).value) == Pool.Run(Abstract(s), OpsOf(s, steps))
    decreases |steps|
  {
    if steps != [] {
      var t := Next(s, steps[0]).value;
      TimelyStepActs(s, steps[0]);
      TimelyStepKeepsOrder(s, steps[0]);
      TimelyRunActs(t, steps[1..]);
      PrependOp(s, t, OpOf(s, steps[0]), OpsOf(t, steps[1..]));
    }
  }

  lemma PrependOp(s: State, t: State, op: Option<Pool.Op<Socket>>, ops: seq<Pool.Op<Socket>>)
    requires Acts(s, t, op) && Pool.EnabledRun(Abstract(t), ops)
    ensures var all := (if op.Some? then [op.value] else []) + ops;
      Pool.EnabledRun(Abstract(s), all) && Pool.Run(Abstract(s), all) == Pool.Run(Abstract(t), ops)
  {
    if op.Some? {
      assert ([op.value] + ops)[1..] == ops;
    } else {
      assert [] + ops == ops;
    }
  }

  /** Every run of the threads in which nobody acts on a test that no longer holds is a run of the pool: however the
      threads interleave, the state stands for the pool that the run's dispatches, completions and additions make. */
  lemma TimelyRunsArePoolRuns(steps: seq<Step>)
    requires TimelyRun(Init(), steps)
    ensures Exec(Init(), steps).Some? && !Exec(Init(), steps).value.undefined
    ensures var ops := OpsOf(Init(), steps);
      && Pool.EnabledRun(Pool.New<Socket>(), ops)
      && Abstract(Exec(Init(), steps).value) == Pool.Run(Pool.New<Socket>(), ops)
  {
    InitIsOrderly();
    TimelyRunActs(Init(), steps);
  }

  /** So what the pool promises holds of the threads themselves. In the order of the events, all have been handed to
      workers, but for those that wait; and while one waits no worker is free, all of at least MAX_WORKER_THREADS
      being in service or on their way out of it. */
  lemma TimelyRunsKeepOrder(steps: seq<Step>)
    requires TimelyRun(Init(), steps)
    ensures Exec(Init(), steps).Some?
    ensures var s := Exec(Init(), steps).value;
      s.dpc == Idle ==> s.handed + s.pending == s.dispatched
    ensures var s := Exec(Init(), steps).value;
      s.pending != [] ==>
        && s.free == [] && |s.workers| >= MAX_WORKER_THREADS
        && forall id :: 0 <= id < |s.workers| ==>
          InService(s.workers[id]) || Parking(s.workers[id]) || Held(RoleOf(s.dpc, id))
  {
    InitIsOrderly();
    TimelyRunActs(Init(), steps);
    var s := Exec(Init(), steps).value;
    assert Pool.InOrder(Abstract(s)) && Pool.WorkConserving(Abstract(s));
    forall id | s.pending != [] && 0 <= id < |s.workers|
      ensures InService(s.workers[id]) || Parking(s.workers[id]) || Held(RoleOf(s.dpc, id))
    {
      assert WorkerInv(s.workers[id], RoleOf(s.dpc, id), id in s.free);
    }
  }

  // ---------------------------------------------------------------- and every other step is not

  /** Some operation of the pool, or nothing, is what the step does to the pool. */
  ghost predicate ActsAsPool(s: State, t: State) {
    exists op :: Acts(s, t, op)
  }

  /** No operation frees a worker and leaves the pending items alone, while there are any. */
  lemma NoParkingWhilePending(p: Pool.Pool<Socket>, q: Pool.Pool<Socket>, op: Option<Pool.Op<Socket>>)
    requires p.pending != [] && q.pending == p.pending && q.dispatched == p.dispatched && |q.free| > |p.free|
    requires op.Some? ==> Pool.Enabled(p, op.value)
    ensures q != After(p, op)
  {
  }

  lemma UntimelyParking(s: State, t: State, op: Option<Pool.Op<Socket>>)
    requires s.pending != [] && t.pending == s.pending && |t.free| > |s.free|
    requires t.dpc == s.dpc && t.dispatched == s.dispatched
    ensures !Acts(s, t, op)
  {
    if Acts(s, t, op) { NoParkingWhilePending(Abstract(s), Abstract(t), op); }
  }

  lemma UntimelyReturn(s: State, id: nat, op: Option<Pool.Op<Socket>>)
    requires !s.undefined && id < |s.workers| && s.workers[id].pc == ReturnFree && s.pending != []
    ensures !Acts(s, Next(s, WorkerMoves(id)).value, op)
  {
    UntimelyParking(s, Next(s, WorkerMoves(id)).value, op);
  }

  lemma UntimelyDispatch(s: State, op: Option<Pool.Op<Socket>>)
    requires Orderly(s) && Next(s, DispatcherMoves).Some? && !Timely(s, DispatcherMoves)
    ensures !Acts(s, Next(s, DispatcherMoves).value, op)
  {
    assert |s.free[1..]| < |s.free|;
  }

  lemma UntimelyAdd(s: State, op: Option<Pool.Op<Socket>>)
    requires Orderly(s) && s.dpc.Idle? && s.pending != []
    ensures !Acts(s, Next(s, AddWorker).value, op)
  {
    assert |(s.free + [|s.workers|])| > |s.free|;
  }

  lemma StepActsExactlyWhen(s: State, step: Step)
    requires Orderly(s) && Next(s, step).Some?
    ensures ActsAsPool(s, Next(s, step).value) <==> Timely(s, step)
  {
    if Timely(s, step) {
      TimelyStepActs(s, step);
    } else {
      forall op
        ensures !Acts(s, Next(s, step).value, op)
      {
        UntimelyStep(s, step, op);
      }
    }
  }

  lemma UntimelyStep(s: State, step: Step, op: Option<Pool.Op<Socket>>)
    requires Orderly(s) && Next(s, step).Some? && !Timely(s, step)
    ensures !Acts(s, Next(s, step).value, op)
  {
    match step
    case AddWorker => UntimelyAdd(s, op);
    case DispatcherMoves => UntimelyDispatch(s, op);
    case WorkerMoves(id) =>
      if s.workers[id].pc == ReturnFree { UntimelyReturn(s, id, op); } else { UntimelyPop(s, id); }
  }

  lemma UntimelyPop(s: State, id: nat)
    requires !s.undefined && id < |s.workers| && s.workers[id].pc == PopItem && s.pending == []
    ensures Next(s, WorkerMoves(id)).value.undefined
  {
  }

  /** Every step of the schedule can be taken, and is an operation of the pool or nothing to it. */
  ghost predicate ActsThroughout(s: State, steps: seq<Step>)
    decreases |steps|
  {
    steps == [] || (Next(s, steps[0]).Some?
      && ActsAsPool(s, Next(s, steps[0]).value) && ActsThroughout(Next(s, steps[0]).value, steps[1..]))
  }

  lemma {:induction false} ActsThroughoutExactlyWhen(s: State, steps: seq<Step>)
    requires Orderly(s)
    ensures ActsThroughout(s, steps) <==> TimelyRun(s, steps)
    decreases |steps|
  {
    if steps != [] && Next(s, steps[0]).Some? {
      StepActsExactlyWhen(s, steps[0]);
      if Timely(s, steps[0]) {
        TimelyStepKeepsOrder(s, steps[0]);
        ActsThroughoutExactlyWhen(Next(s, steps[0]).value, steps[1..]);
      }
    }
  }

  /** A run of the threads goes through the pool's operations, one by one, exactly when nobody in it acts on a test
      that no longer holds. */
  lemma ActsAsPoolExactlyWhen(steps: seq<Step>)
    ensures ActsThroughout(Init(), steps) <==> TimelyRun(Init(), steps)
  {
    InitIsOrderly();
    ActsThroughoutExactlyWhen(Init(), steps);
  }

  /** The runs that module SerialRuns makes for the pool end in states that stand for the same pool here. */
  lemma QuietStandsForSame(s: State)
    requires Quiet(s)
    ensures Abstract(s) == PoolOf(s)
  {
    assert AtWork(s.workers, Idle) == Serving(s.workers);
  }

  /** So a state is reached for every run of the pool that stands for it in both senses. */
  lemma PoolRunsAreReached(ops: seq<Pool.Op<Socket>>) returns (s: State)
    requires Pool.EnabledRun(Pool.New<Socket>(), ops)
    ensures Reachable(s) && Quiet(s) && Abstract(s) == Pool.Run(Pool.New<Socket>(), ops)
  {
    s := PoolRunsAreThreadRuns(ops);
    QuietStandsForSame(s);
  }
}
