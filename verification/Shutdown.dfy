/**
 WakeUpAllThreads tells the workers to terminate, one after the other, writing each state and
 signalling each condition variable without the worker's mutex, while it holds the dispatcher's lock.
 This module says exactly when every worker thread then exits under every schedule, so that JoinThreads
 returns: wherever the dispatcher stands, with and without spurious wakeups, and with events that go on coming.
 */
module Shutdown {
  import opened Common
  import Schedules
  import opened WorkerThreads
  import opened Handshake
  import opened CompletionRaces

  /** Of the `total` workers there were at the start, `next` have been told; `written` when the next one has its state
      written and its signal to come. */
  datatype Ending = Ending(s: State, total: nat, next: nat, written: bool)

  datatype EndStep = Tell | Thread(id: nat) | Wakeup(id: nat) | Event(item: Socket) | Dispatching

  /** What may happen besides the shutdown: spurious wakeups, and further events. The dispatcher finishes the event it
      is at in any case. */
  datatype Allowed = Allowed(wakeups: bool, events: bool)

  const CALM := Allowed(false, false)

  predicate Permits(a: Allowed, step: EndStep) {
    match step
    case Wakeup(_) => a.wakeups
    case Event(_) => a.events
    case _ => true
  }

  predicate AllPermitted(a: Allowed, steps: seq<EndStep>) {
    forall i :: 0 <= i < |steps| ==> Permits(a, steps[i])
  }

  function Start(s: State): Ending { Ending(s, |s.workers|, 0, false) }

  predicate AllTold(e: Ending) { e.next >= e.total }

  function TellNext(e: Ending): Ending
    requires !AllTold(e) && e.total <= |e.s.workers|
  {
    var w := e.s.workers[e.next];
    if e.written then e.(s := Put(e.s, e.next, Wake(w)), next := e.next + 1, written := false)
    else e.(s := Put(e.s, e.next, w.(state := TERMINATE)), written := true)
  }

  /** A step that needs the lock which WakeUpAllThreads holds. */
  predicate WaitsForLock(s: State, step: EndStep) {
    match step
    case Thread(id) => id < |s.workers| && s.workers[id].pc == ReturnFree
    case Dispatching => s.dpc.GetFree? || s.dpc.RecordBusy?
    case _ => false
  }

  /** What a step of a thread is in the machine of module WorkerThreads. */
  function Ordinary(step: EndStep): Step
    requires !step.Tell?
  {
    match step
    case Thread(id) => WorkerMoves(id)
    case Wakeup(id) => SpuriousWakeup(id)
    case Event(item) => Dispatch(item)
    case Dispatching => DispatcherMoves
  }

  /** The next state, or None when the step cannot be taken. */
  function EndNext(e: Ending, step: EndStep): Option<Ending> {
    if step.Tell? then
      if e.s.undefined || AllTold(e) || e.total > |e.s.workers| then None else Some(TellNext(e))
    else if WaitsForLock(e.s, step) && !AllTold(e) then None
    else
      var t := Next(e.s, Ordinary(step));
      if t.None? then None else Some(e.(s := t.value))
  }

  function EndExec(e: Ending, steps: seq<EndStep>): Option<Ending> {
    Schedules.Run(EndNext, e, steps)
  }

  ghost predicate Leads(e: Ending, f: Ending, a: Allowed) {
    exists steps: seq<EndStep> :: AllPermitted(a, steps) && EndExec(e, steps) == Some(f)
  }

  predicate AllExited(e: Ending) {
    forall id :: 0 <= id < |e.s.workers| ==> e.s.workers[id].pc == Exited
  }

  /** A worker asleep with nobody left to tell it, or an undefined effect. */
  predicate Failed(e: Ending) {
    e.s.undefined || (AllTold(e) && exists id :: 0 <= id < |e.s.workers| && e.s.workers[id].pc == Blocked)
  }

  /** Every worker waits for the dispatcher's lock to be listed free. */
  predicate AllReturning(s: State) {
    forall id :: 0 <= id < |s.workers| ==> s.workers[id].pc == ReturnFree
  }

  /** Every worker sleeps on its condition variable, or waits for the dispatcher's lock to be listed free. */
  predicate AllParked(s: State) {
    forall id :: 0 <= id < |s.workers| ==> s.workers[id].pc == Blocked || s.workers[id].pc == ReturnFree
  }

  /** The dispatcher has nothing to do, or nothing that takes a worker: it queues its item, or has resumed a worker that
      has served and parked since, or that sleeps again. */
  predicate TakesNobody(s: State) {
    match s.dpc
    case GetFree(_) => false
    case TestLimit(_) => |s.workers| >= MAX_WORKER_THREADS
    case SetSocket(_, _, _) => false
    case ResumeLock(_, _) => false
    case ResumeWrite(_, _) => false
    case ResumeSignal(id, _) => id < |s.workers| && s.workers[id].pc == ReturnFree
    case _ => true
  }

  /** When a shutdown works whatever happens of what is allowed. */
  predicate Survives(s: State, a: Allowed) {
    TakesNobody(s) && !a.events && if a.wakeups then AllReturning(s) else AllParked(s)
  }

  // ---------------------------------------------------------------- schedules

  lemma LeadsSelf(e: Ending, a: Allowed)
    ensures Leads(e, e, a)
  {
    assert AllPermitted(a, []) && EndExec(e, []) == Some(e);
  }

  lemma LeadsThen(e: Ending, f: Ending, step: EndStep, a: Allowed)
    requires Leads(e, f, a) && EndNext(f, step).Some? && Permits(a, step)
    ensures Leads(e, EndNext(f, step).value, a)
  {
    var steps: seq<EndStep> :| AllPermitted(a, steps) && EndExec(e, steps) == Some(f);
    Schedules.RunThen(EndNext, e, steps, step);
    assert AllPermitted(a, steps + [step]);
  }

  // ---------------------------------------------------------------- from a parked pool, everyone exits

  /** How many steps a worker of a parked pool is away from its exit. */
  function StepsToExit(pc: WorkerPc): nat {
    match pc
    case Exited => 0
    case TestTerminate => 1
    case TestSleepTime => 2
    case TestSleepWait => 3
    case TestResume => 4
    case PauseUnlock => 5
    case ReturnFree => 5
    case PauseTest => 6
    case Woken => 7
    case Blocked => 8
    case _ => 0
  }

  /** A worker on its way out: told or not, as far as `told` and `written` say. */
  predicate OnItsWay(w: Worker, told: bool, written: bool, role: Role) {
    && w.state == (if told || written then TERMINATE else SLEEP_WAIT)
    && (w.pc == Exited || StepsToExit(w.pc) > 0)
    && (!told ==> w.pc == Blocked || w.pc == ReturnFree)
    && (told ==> w.pc != Blocked)
    && MutexOnTheWay(w, role)
  }

  /** The dispatcher may still hold the mutex; then the worker does not, and is not to be signalled out of its sleep. */
  predicate MutexOnTheWay(w: Worker, role: Role) {
    match role
    case Uninvolved => w.lock == if HoldsMutex(w.pc) then ByWorker else Nobody
    case Signalling => w.lock == ByDispatcher && !HoldsMutex(w.pc) && w.pc != Blocked
    case Unlocking => w.lock == ByDispatcher && !HoldsMutex(w.pc)
    case _ => false
  }

  /** How many steps the dispatcher is away from the end of its event, if it takes nobody. */
  function StepsToIdle(d: DispatcherPc): nat {
    match d
    case TestLimit(_) => 2
    case PushItem(_) => 1
    case ResumeSignal(_, _) => 3
    case ResumeUnlock(_, _) => 2
    case RecordBusy(_) => 1
    case _ => 0
  }

  predicate Finishing(s: State) {
    && (s.dpc == Idle || StepsToIdle(s.dpc) > 0)
    && (s.dpc.TestLimit? ==> |s.workers| >= MAX_WORKER_THREADS)
    && (HandsOff(s.dpc) ==> s.dpc.id < |s.workers|)
  }

  predicate AllOnTheirWay(e: Ending) {
    && !e.s.undefined && e.next <= e.total == |e.s.workers| && (e.written ==> !AllTold(e)) && Finishing(e.s)
    && forall id :: 0 <= id < |e.s.workers| ==>
      OnItsWay(e.s.workers[id], id < e.next, e.written && id == e.next, RoleOf(e.s.dpc, id))
  }

  function StepsLeft(ws: seq<Worker>): nat {
    if ws == [] then 0 else StepsLeft(ws[..|ws| - 1]) + StepsToExit(ws[|ws| - 1].pc)
  }

  /** The steps any schedule may still take. */
  function Left(e: Ending): int {
    StepsLeft(e.s.workers) + 2 * (e.total - e.next) - One(e.written) + StepsToIdle(e.s.dpc)
  }

  lemma {:induction false} StepsLeftUpdate(ws: seq<Worker>, id: nat, w: Worker)
    requires id < |ws|
    ensures StepsLeft(ws[id := w]) == StepsLeft(ws) + StepsToExit(w.pc) - StepsToExit(ws[id].pc)
  {
    var n := |ws| - 1;
    if id == n {
      assert ws[id := w][..n] == ws[..n];
    } else {
      assert ws[id := w][..n] == ws[..n][id := w];
      StepsLeftUpdate(ws[..n], id, w);
    }
  }

  lemma ExitApproaches(w: Worker, told: bool, written: bool, role: Role, pending: seq<Socket>)
    requires OnItsWay(w, told, written, role) && RunThread(w, pending).Some? && (w.pc == ReturnFree ==> told)
    ensures var o := RunThread(w, pending).value;
      (o.Moves? || o.Returns?) && OnItsWay(o.w, told, written, role) && StepsToExit(o.w.pc) < StepsToExit(w.pc)
  {
  }

  /** Who is asleep can be woken by nobody but WakeUpAllThreads. */
  predicate NoSurprises(e: Ending, a: Allowed) {
    && !a.events
    && (a.wakeups ==> forall id :: 0 <= id < |e.s.workers| ==> e.s.workers[id].pc != Blocked)
  }

  lemma EndStepDecreases(e: Ending, step: EndStep, a: Allowed)
    requires AllOnTheirWay(e) && NoSurprises(e, a) && Permits(a, step) && EndNext(e, step).Some?
    ensures var f := EndNext(e, step).value; AllOnTheirWay(f) && NoSurprises(f, a) && Left(f) < Left(e)
  {
    match step
    case Tell => TellDecreases(e, a);
    case Thread(id) => ThreadDecreases(e, id, a);
    case Dispatching => DispatcherDecreases(e, a);
    case Wakeup(_) =>
  }

  /** What the end of a Resume does to the worker it is about. */
  lemma ResumeEnds(w: Worker, told: bool, written: bool, d: DispatcherPc)
    requires (d.ResumeSignal? || d.ResumeUnlock?) && OnItsWay(w, told, written, RoleOf(d, d.id))
    ensures var (w', d') := HandOff(d, w).value;
      && HandOff(d, w).Some? && w'.pc == w.pc && OnItsWay(w', told, written, RoleOf(d', d.id))
      && StepsToIdle(d') < StepsToIdle(d)
  {
  }

  lemma DispatcherDecreases(e: Ending, a: Allowed)
    requires AllOnTheirWay(e) && NoSurprises(e, a) && EndNext(e, Dispatching).Some?
    ensures var f := EndNext(e, Dispatching).value; AllOnTheirWay(f) && NoSurprises(f, a) && Left(f) < Left(e)
  {
    if HandsOff(e.s.dpc) { ResumeDecreases(e, a); } else { AssignDecreases(e, a); }
  }

  lemma AssignDecreases(e: Ending, a: Allowed)
    requires AllOnTheirWay(e) && NoSurprises(e, a) && EndNext(e, Dispatching).Some? && !HandsOff(e.s.dpc)
    ensures var f := EndNext(e, Dispatching).value; AllOnTheirWay(f) && NoSurprises(f, a) && Left(f) < Left(e)
  {
    var f := EndNext(e, Dispatching).value;
    assert f.s.workers == e.s.workers;
  }

  lemma ResumeDecreases(e: Ending, a: Allowed)
    requires AllOnTheirWay(e) && NoSurprises(e, a) && EndNext(e, Dispatching).Some? && HandsOff(e.s.dpc)
    ensures var f := EndNext(e, Dispatching).value; AllOnTheirWay(f) && NoSurprises(f, a) && Left(f) < Left(e)
  {
    var id, w := e.s.dpc.id, e.s.workers[e.s.dpc.id];
    assert OnItsWay(w, id < e.next, e.written && id == e.next, RoleOf(e.s.dpc, id));
    ResumeEnds(w, id < e.next, e.written && id == e.next, e.s.dpc);
    ResumeMoves(e, EndNext(e, Dispatching).value, HandOff(e.s.dpc, w).value.0, a);
  }

  lemma ResumeMoves(e: Ending, f: Ending, w: Worker, a: Allowed)
    requires AllOnTheirWay(e) && NoSurprises(e, a) && HandsOff(e.s.dpc) && w.pc == e.s.workers[e.s.dpc.id].pc
    requires f == e.(s := f.s) && !f.s.undefined && Finishing(f.s) && StepsToIdle(f.s.dpc) < StepsToIdle(e.s.dpc)
    requires f.s.workers == e.s.workers[e.s.dpc.id := w] && (HandsOff(f.s.dpc) ==> f.s.dpc.id == e.s.dpc.id)
    requires var id := e.s.dpc.id; OnItsWay(w, id < e.next, e.written && id == e.next, RoleOf(f.s.dpc, id))
    ensures AllOnTheirWay(f) && NoSurprises(f, a) && Left(f) < Left(e)
  {
    StepsLeftUpdate(e.s.workers, e.s.dpc.id, w);
  }

  lemma ThreadDecreases(e: Ending, id: nat, a: Allowed)
    requires AllOnTheirWay(e) && NoSurprises(e, a) && EndNext(e, Thread(id)).Some?
    ensures var f := EndNext(e, Thread(id)).value; AllOnTheirWay(f) && NoSurprises(f, a) && Left(f) < Left(e)
  {
    var w := e.s.workers[id];
    assert OnItsWay(w, id < e.next, e.written && id == e.next, RoleOf(e.s.dpc, id));
    ExitApproaches(w, id < e.next, e.written && id == e.next, RoleOf(e.s.dpc, id), e.s.pending);
    ThreadMoves(e, EndNext(e, Thread(id)).value, id, RunThread(w, e.s.pending).value.w, a);
  }

  lemma ThreadMoves(e: Ending, f: Ending, id: nat, w: Worker, a: Allowed)
    requires AllOnTheirWay(e) && NoSurprises(e, a) && id < |e.s.workers|
    requires f == e.(s := f.s) && !f.s.undefined && f.s.dpc == e.s.dpc && f.s.workers == e.s.workers[id := w]
    requires OnItsWay(w, id < e.next, e.written && id == e.next, RoleOf(e.s.dpc, id))
    requires StepsToExit(w.pc) < StepsToExit(e.s.workers[id].pc)
    ensures AllOnTheirWay(f) && NoSurprises(f, a) && Left(f) < Left(e)
  {
    StepsLeftUpdate(e.s.workers, id, w);
  }

  lemma TellDecreases(e: Ending, a: Allowed)
    requires AllOnTheirWay(e) && NoSurprises(e, a) && !AllTold(e)
    ensures AllOnTheirWay(TellNext(e)) && NoSurprises(TellNext(e), a) && Left(TellNext(e)) < Left(e)
  {
    var w := e.s.workers[e.next];
    StepsLeftUpdate(e.s.workers, e.next, if e.written then Wake(w) else w.(state := TERMINATE));
  }

  lemma {:induction false} ParkedRun(e: Ending, steps: seq<EndStep>, a: Allowed)
    requires AllOnTheirWay(e) && NoSurprises(e, a) && AllPermitted(a, steps) && EndExec(e, steps).Some?
    ensures var f := EndExec(e, steps).value; AllOnTheirWay(f) && Left(f) + |steps| <= Left(e)
    decreases |steps|
  {
    if steps != [] {
      EndStepDecreases(e, steps[0], a);
      ParkedRun(EndNext(e, steps[0]).value, steps[1..], a);
    }
  }

  /** No schedule goes on from here. */
  ghost predicate Stuck(e: Ending, a: Allowed) {
    forall step :: Permits(a, step) ==> EndNext(e, step).None?
  }

  /** Everybody was told and has exited, and the dispatcher waits for events. */
  predicate Over(e: Ending) {
    AllExited(e) && AllTold(e) && e.s.dpc == Idle
  }

  lemma StuckMeansOver(e: Ending, a: Allowed)
    requires AllOnTheirWay(e) && Stuck(e, a)
    ensures Over(e)
  {
    assert EndNext(e, Tell).None?;
    assert EndNext(e, Dispatching).None?;
    if e.s.dpc != Idle { DispatcherNotStuck(e); }
    forall id | 0 <= id < |e.s.workers|
      ensures e.s.workers[id].pc == Exited
    {
      assert EndNext(e, Thread(id)).None?;
    }
  }

  lemma DispatcherNotStuck(e: Ending)
    requires AllOnTheirWay(e) && AllTold(e) && e.s.dpc != Idle
    ensures EndNext(e, Dispatching).Some?
  {
    if HandsOff(e.s.dpc) {
      assert OnItsWay(e.s.workers[e.s.dpc.id], true, false, RoleOf(e.s.dpc, e.s.dpc.id));
    }
  }

  lemma OverMeansStuck(e: Ending, a: Allowed)
    requires Over(e) && !a.events
    ensures Stuck(e, a)
  {
  }

  lemma ParkedWorkerStarts(w: Worker, d: DispatcherPc, id: nat, listed: bool)
    requires WorkerInv(w, RoleOf(d, id), listed) && (w.pc == Blocked || w.pc == ReturnFree)
    requires !Held(RoleOf(d, id)) && (RoleOf(d, id).Signalling? ==> w.pc == ReturnFree)
    ensures OnItsWay(w, false, false, RoleOf(d, id))
  {
  }

  lemma ParkedStart(s: State, a: Allowed)
    requires Inv(s) && !s.undefined && Survives(s, a)
    ensures AllOnTheirWay(Start(s)) && NoSurprises(Start(s), a) && Left(Start(s)) <= 10 * |s.workers| + 3
  {
    forall id | 0 <= id < |s.workers|
      ensures OnItsWay(s.workers[id], false, false, RoleOf(s.dpc, id))
    {
      ParkedWorkerStarts(s.workers[id], s.dpc, id, id in s.free);
    }
    StepsLeftBound(s.workers);
  }

  lemma {:induction false} StepsLeftBound(ws: seq<Worker>)
    ensures StepsLeft(ws) <= 8 * |ws|
  {
    if ws != [] { StepsLeftBound(ws[..|ws| - 1]); }
  }

  /** From a parked pool, no schedule takes more than ten steps for each worker and three of the dispatcher, and a
      schedule that cannot be continued has brought every worker thread to its exit. */
  lemma ParkedPoolExits(s: State, steps: seq<EndStep>, a: Allowed)
    requires Inv(s) && !s.undefined && Survives(s, a) && AllPermitted(a, steps) && EndExec(Start(s), steps).Some?
    ensures |steps| <= 10 * |s.workers| + 3
    ensures var f := EndExec(Start(s), steps).value; Stuck(f, a) <==> Over(f)
  {
    ParkedStart(s, a);
    ParkedRun(Start(s), steps, a);
    var f := EndExec(Start(s), steps).value;
    LeftIsNotNegative(f);
    if Stuck(f, a) { StuckMeansOver(f, a); }
    if Over(f) { OverMeansStuck(f, a); }
  }

  lemma LeftIsNotNegative(e: Ending)
    requires AllOnTheirWay(e)
    ensures Left(e) >= 0
  {
  }

  // ---------------------------------------------------------------- any other worker can be left asleep

  /** How many steps a worker is away from a place where being told to terminate is lost on it. */
  function StepsToDanger(w: Worker): nat {
    match w.pc
    case LoadSocket => 1
    case WriteResume => 4
    case PopItem => 3
    case TestResume => if InService(w) then 2 else 4
    case TestSleepWait => if InService(w) then 5 else 3
    case TestSleepTime => if InService(w) then 4 else 6
    case TestTerminate => if InService(w) then 3 else 5
    case PauseLock => if InService(w) then 5 else 2
    case Woken => if InService(w) then 5 else 2
    case PauseTest => if InService(w) then 4 else 1
    case PauseUnlock => if InService(w) then 3 else 5
    case _ => 0
  }

  predicate InDanger(w: Worker) {
    w.pc == PauseWait || w.pc == Receiving || w.pc == CheckCount || w.pc == WriteSleep
  }

  lemma DangerApproaches(w: Worker, listed: bool, pending: seq<Socket>)
    requires WorkerInv(w, Uninvolved, listed) && w.pc != Blocked && w.pc != ReturnFree && !InDanger(w)
    ensures RunThread(w, pending).Some?
    ensures match RunThread(w, pending).value
      case Undefined => true
      case Returns(_) => false
      case o => o.w.pc != Blocked && o.w.pc != ReturnFree && StepsToDanger(o.w) < StepsToDanger(w)
  {
  }

  /** Nobody has been told yet. */
  predicate Beginning(e: Ending) {
    e.next == 0 && !e.written && e.total == |e.s.workers| && Inv(e.s) && !e.s.undefined
  }

  /** Before anybody is told, worker `id` alone can move to where it will miss the word. */
  lemma {:induction false} BringToDanger(start: Ending, e: Ending, id: nat, a: Allowed) returns (f: Ending)
    requires Leads(start, e, a) && Beginning(e) && !HandsOff(e.s.dpc) && id < |e.s.workers|
    requires e.s.workers[id].pc != Blocked && e.s.workers[id].pc != ReturnFree
    ensures Leads(start, f, a)
    ensures f.s.undefined ||
      (Beginning(f) && !HandsOff(f.s.dpc) && id < |f.s.workers| && InDanger(f.s.workers[id]))
    decreases StepsToDanger(e.s.workers[id])
  {
    f := e;
    if !InDanger(e.s.workers[id]) {
      assert WorkerInv(e.s.workers[id], Uninvolved, id in e.s.free);
      DangerApproaches(e.s.workers[id], id in e.s.free, e.s.pending);
      LeadsThen(start, e, Thread(id), a);
      NextKeepsInv(e.s, WorkerMoves(id));
      f := EndNext(e, Thread(id)).value;
      if !f.s.undefined {
        f := BringToDanger(start, f, id, a);
      }
    }
  }

  /** What being told does to a worker whose thread stands still. */
  function Told(w: Worker): Worker { Wake(w.(state := TERMINATE)) }

  /** The remaining workers are told, while all threads stand still. */
  lemma {:induction false} TellTheRest(start: Ending, e: Ending, id: nat, a: Allowed) returns (f: Ending)
    requires Leads(start, e, a) && !e.s.undefined && e.next <= e.total <= |e.s.workers| && !e.written
    requires id < e.total
    ensures Leads(start, f, a) && AllTold(f) && |f.s.workers| == |e.s.workers|
    ensures f.s == e.s.(workers := f.s.workers)
    ensures f.s.workers[id] == if id < e.next then e.s.workers[id] else Told(e.s.workers[id])
    decreases e.total - e.next
  {
    f := e;
    if !AllTold(e) {
      LeadsThen(start, e, Tell, a);
      var g := TellNext(e);
      LeadsThen(start, g, Tell, a);
      f := TellTheRest(start, TellNext(g), id, a);
    }
  }

  /** A told worker that will overwrite TERMINATE, or wait without looking at it again. */
  predicate Doomed(w: Worker, pending: seq<Socket>) {
    && w.lock == (if HoldsMutex(w.pc) then ByWorker else Nobody)
    && match w.pc
       case Receiving => true
       case CheckCount => true
       case WriteSleep => true
       case PauseWait => true
       case WriteResume => pending != []
       case PopItem => w.state == RESUME && pending != []
       case LoadSocket => w.socket.Some?
       case PauseUnlock => ToServe(w)
       case TestSleepTime => ToServe(w)
       case TestTerminate => ToServe(w)
       case TestResume => w.state == SLEEP_WAIT || ToServe(w)
       case Woken => w.state == SLEEP_WAIT || ToServe(w)
       case PauseTest => w.state == SLEEP_WAIT || ToServe(w)
       case ReturnFree => w.state == SLEEP_WAIT
       case TestSleepWait => w.state == SLEEP_WAIT || ToServe(w)
       case PauseLock => w.state == SLEEP_WAIT || ToServe(w)
       case _ => false
  }

  predicate ToServe(w: Worker) { w.state == RESUME && w.socket.Some? }

  function StepsToSleep(w: Worker): nat {
    match w.pc
    case Woken => if w.state == RESUME then 16 else 4
    case PauseTest => if w.state == RESUME then 15 else 3
    case PauseUnlock => 14
    case TestResume => if w.state == RESUME then 13 else 6
    case LoadSocket => 12
    case Receiving => 11
    case CheckCount => 10
    case WriteResume => 9
    case PopItem => 8
    case WriteSleep => 8
    case ReturnFree => 7
    case TestTerminate => 14
    case TestSleepTime => 15
    case TestSleepWait => if w.state == RESUME then 16 else 5
    case PauseLock => if w.state == RESUME then 16 else 4
    case PauseWait => 2
    case _ => 0
  }

  lemma DoomedStep(w: Worker, pending: seq<Socket>)
    requires Doomed(w, pending)
    ensures RunThread(w, pending).Some?
    ensures var o := RunThread(w, pending).value; match o
      case Moves(w') => w'.pc == Blocked || (Doomed(w', pending) && StepsToSleep(w') < StepsToSleep(w))
      case Returns(w') => Doomed(w', pending) && StepsToSleep(w') < StepsToSleep(w)
      case Pops(w') => pending != [] && Doomed(w', pending[1..])
      case Undefined => false
  {
  }

  lemma {:induction false} DoomedSleeps(start: Ending, e: Ending, id: nat, a: Allowed) returns (f: Ending)
    requires Leads(start, e, a) && AllTold(e) && !e.s.undefined && id < |e.s.workers|
    requires Doomed(e.s.workers[id], e.s.pending)
    ensures Leads(start, f, a) && Failed(f)
    decreases |e.s.pending|, StepsToSleep(e.s.workers[id])
  {
    DoomedStep(e.s.workers[id], e.s.pending);
    LeadsThen(start, e, Thread(id), a);
    f := EndNext(e, Thread(id)).value;
    if f.s.workers[id].pc != Blocked {
      f := DoomedSleeps(start, f, id, a);
    }
  }

  lemma CanFailFrom(start: Ending, e: Ending, id: nat, a: Allowed) returns (f: Ending)
    requires Leads(start, e, a) && Beginning(e) && !HandsOff(e.s.dpc) && id < |e.s.workers|
    requires e.s.workers[id].pc != Blocked && e.s.workers[id].pc != ReturnFree
    ensures Leads(start, f, a) && Failed(f)
  {
    f := BringToDanger(start, e, id, a);
    if !f.s.undefined {
      assert WorkerInv(f.s.workers[id], Uninvolved, id in f.s.free);
      f := TellTheRest(start, f, id, a);
      f := DoomedSleeps(start, f, id, a);
    }
  }

  /** Nor is it safe that a sleeping worker wakes by itself before it is told: it may have looked at its state, and
      not yet be waiting, when its signal comes. */
  lemma WakeupCanFail(start: Ending, e: Ending, id: nat, a: Allowed) returns (f: Ending)
    requires Leads(start, e, a) && Beginning(e) && !HandsOff(e.s.dpc) && a.wakeups
    requires id < |e.s.workers| && e.s.workers[id].pc == Blocked
    ensures Leads(start, f, a) && Failed(f)
  {
    LeadsThen(start, e, Wakeup(id), a);
    NextKeepsInv(e.s, SpuriousWakeup(id));
    f := CanFailFrom(start, EndNext(e, Wakeup(id)).value, id, a);
  }

  // ---------------------------------------------------------------- a dispatcher that takes a worker

  /** Outside Pause's critical section, and not asleep: with RESUME in its slot the worker will serve. */
  predicate Awake(w: Worker) {
    && w.lock == Nobody
    && (w.pc == TestResume || w.pc == TestSleepWait || w.pc == TestSleepTime || w.pc == TestTerminate
        || w.pc == PauseLock || w.pc == Woken)
  }

  lemma DispatcherGoesOn(start: Ending, e: Ending, a: Allowed) returns (f: Ending)
    requires Leads(start, e, a) && AllTold(e) && Next(e.s, DispatcherMoves).Some?
    ensures Leads(start, f, a) && f == e.(s := Next(e.s, DispatcherMoves).value)
  {
    LeadsThen(start, e, Dispatching, a);
    f := EndNext(e, Dispatching).value;
  }

  lemma HandsOn(start: Ending, e: Ending, a: Allowed, w: Worker, d: DispatcherPc) returns (f: Ending)
    requires Leads(start, e, a) && AllTold(e) && !e.s.undefined
    requires HandsOff(e.s.dpc) && e.s.dpc.id < |e.s.workers|
    requires HandOff(e.s.dpc, e.s.workers[e.s.dpc.id]) == Some((w, d))
    ensures Leads(start, f, a) && AllTold(f) && !f.s.undefined && f.s.dpc == d && |f.s.workers| == |e.s.workers|
    ensures f.s.workers[e.s.dpc.id] == w
  {
    f := DispatcherGoesOn(start, e, a);
  }

  /** The dispatcher writes RESUME over TERMINATE: the worker serves, and goes to sleep behind it. */
  lemma ResumeCanFail(start: Ending, e: Ending, a: Allowed) returns (f: Ending)
    requires Leads(start, e, a) && AllTold(e) && !e.s.undefined
    requires e.s.dpc.ResumeWrite? && e.s.dpc.id < |e.s.workers|
    requires var w := e.s.workers[e.s.dpc.id]; Awake(w.(lock := Nobody)) && w.lock == ByDispatcher && w.socket.Some?
    ensures Leads(start, f, a) && Failed(f)
  {
    var id, g, w := e.s.dpc.id, e.s.dpc.grown, e.s.workers[e.s.dpc.id].(state := RESUME);
    f := HandsOn(start, e, a, w, ResumeSignal(id, g));
    f := HandsOn(start, f, a, w, ResumeUnlock(id, g));
    f := HandsOn(start, f, a, w.(lock := Nobody), if g then RecordBusy(id) else Idle);
    f := DoomedSleeps(start, f, id, a);
  }

  lemma LockCanFail(start: Ending, e: Ending, a: Allowed) returns (f: Ending)
    requires Leads(start, e, a) && AllTold(e) && !e.s.undefined
    requires e.s.dpc.ResumeLock? && e.s.dpc.id < |e.s.workers|
    requires Awake(e.s.workers[e.s.dpc.id]) && e.s.workers[e.s.dpc.id].socket.Some?
    ensures Leads(start, f, a) && Failed(f)
  {
    var id, w := e.s.dpc.id, e.s.workers[e.s.dpc.id].(lock := ByDispatcher);
    f := HandsOn(start, e, a, w, ResumeWrite(id, e.s.dpc.grown));
    f := ResumeCanFail(start, f, a);
  }

  lemma SetCanFail(start: Ending, e: Ending, a: Allowed) returns (f: Ending)
    requires Leads(start, e, a) && AllTold(e) && !e.s.undefined
    requires e.s.dpc.SetSocket? && e.s.dpc.id < |e.s.workers| && Awake(e.s.workers[e.s.dpc.id])
    ensures Leads(start, f, a) && Failed(f)
  {
    var id, item, w := e.s.dpc.id, e.s.dpc.item, e.s.workers[e.s.dpc.id];
    f := HandsOn(start, e, a, w.(socket := Some(item), given := w.given + [item]), ResumeLock(id, e.s.dpc.grown));
    f := LockCanFail(start, f, a);
  }

  /** A worker that the dispatcher has taken, and not yet resumed. */
  predicate TakenAwake(e: Ending) {
    && HandsOff(e.s.dpc) && Held(RoleOf(e.s.dpc, e.s.dpc.id)) && e.s.dpc.id < |e.s.workers|
    && var w := e.s.workers[e.s.dpc.id];
      && Awake(w.(lock := Nobody)) && w.lock == (if e.s.dpc.ResumeWrite? then ByDispatcher else Nobody)
      && (!e.s.dpc.SetSocket? ==> w.socket.Some?)
  }

  lemma TakenCanFail(start: Ending, e: Ending, a: Allowed) returns (f: Ending)
    requires Leads(start, e, a) && AllTold(e) && !e.s.undefined && TakenAwake(e)
    ensures Leads(start, f, a) && Failed(f)
  {
    var w := e.s.workers[e.s.dpc.id];
    assert w.lock == Nobody ==> w.(lock := Nobody) == w;
    match e.s.dpc
    case SetSocket(_, _, _) => f := SetCanFail(start, e, a);
    case ResumeLock(_, _) => f := LockCanFail(start, e, a);
    case ResumeWrite(_, _) => f := ResumeCanFail(start, e, a);
  }

  /** A worker's thread moves, before anybody is told. */
  lemma MovesFirst(start: Ending, e: Ending, id: nat, a: Allowed) returns (f: Ending)
    requires Leads(start, e, a) && Beginning(e) && id < |e.s.workers| && e.s.workers[id].pc != ReturnFree
    requires RunThread(e.s.workers[id], e.s.pending).Some? && RunThread(e.s.workers[id], e.s.pending).value.Moves?
    ensures Leads(start, f, a) && Beginning(f) && f.s.dpc == e.s.dpc && id < |f.s.workers|
    ensures f.s.workers[id] == RunThread(e.s.workers[id], e.s.pending).value.w
  {
    LeadsThen(start, e, Thread(id), a);
    NextKeepsInv(e.s, WorkerMoves(id));
    f := EndNext(e, Thread(id)).value;
  }

  /** A held worker leaves Pause's critical section. */
  lemma LeavesPause(start: Ending, e: Ending, a: Allowed) returns (f: Ending)
    requires Leads(start, e, a) && Beginning(e) && HandsOff(e.s.dpc) && Held(RoleOf(e.s.dpc, e.s.dpc.id))
    ensures Leads(start, f, a) && Beginning(f) && f.s.dpc == e.s.dpc && !HoldsMutex(f.s.workers[f.s.dpc.id].pc)
  {
    var id := e.s.dpc.id;
    f := e;
    if f.s.workers[id].pc == PauseTest {
      assert Sleeping(f.s.workers[id].state) by {
        assert WorkerInv(f.s.workers[id], RoleOf(f.s.dpc, id), id in f.s.free);
      }
      f := MovesFirst(start, f, id, a);
    }
    if HoldsMutex(f.s.workers[id].pc) {
      f := MovesFirst(start, f, id, a);
    }
  }

  lemma HeldIsAwakeOnceTold(w: Worker, role: Role, listed: bool)
    requires WorkerInv(w, role, listed) && Held(role) && !HoldsMutex(w.pc)
    ensures Awake(Told(w).(lock := Nobody)) && w.lock == (if role.Writing? then ByDispatcher else Nobody)
    ensures !role.Setting? ==> w.socket.Some?
  {
  }

  /** Whatever the pool looks like, a worker taken for the event at hand can be left asleep. */
  lemma HeldCanFail(start: Ending, e: Ending, a: Allowed) returns (f: Ending)
    requires Leads(start, e, a) && Beginning(e) && HandsOff(e.s.dpc) && Held(RoleOf(e.s.dpc, e.s.dpc.id))
    ensures Leads(start, f, a) && Failed(f)
  {
    f := LeavesPause(start, e, a);
    var id := f.s.dpc.id;
    HeldIsAwakeOnceTold(f.s.workers[id], RoleOf(f.s.dpc, id), id in f.s.free);
    f := TellTheRest(start, f, id, a);
    f := TakenCanFail(start, f, a);
  }

  // ---------------------------------------------------------------- a dispatcher that will take a worker

  /** The pool is parked, and everybody is told; then a worker is on the free list, unless there is none at all. */
  lemma AllToldAndListed(start: Ending, e: Ending, a: Allowed) returns (f: Ending)
    requires Leads(start, e, a) && Beginning(e) && !HandsOff(e.s.dpc) && AllParked(e.s)
    ensures Leads(start, f, a) && AllTold(f) && !f.s.undefined && f.s.dpc == e.s.dpc && f.s.pending == e.s.pending
    ensures Listed(f.s) && |f.s.workers| == |e.s.workers|
  {
    f := e;
    assert e.s.free != [] ==> e.s.free[0] < |e.s.workers|;
    if e.s.workers != [] {
      var id := if e.s.free != [] then e.s.free[0] else 0;
      assert WorkerInv(e.s.workers[id], Uninvolved, id in e.s.free);
      f := TellTheRest(start, e, id, a);
      if e.s.free == [] {
        LeadsThen(start, f, Thread(id), a);
        f := EndNext(f, Thread(id)).value;
      }
    }
  }

  /** A worker is at the front of the free list, and awake; or there are no workers. */
  predicate Listed(s: State) {
    if s.free == [] then s.workers == [] else s.free[0] < |s.workers| && Awake(s.workers[s.free[0]])
  }

  /** The dispatcher looks for a worker, and finds or makes one. */
  lemma GetFreeCanFail(start: Ending, e: Ending, a: Allowed) returns (f: Ending)
    requires Leads(start, e, a) && AllTold(e) && !e.s.undefined && e.s.dpc.GetFree? && Listed(e.s)
    ensures Leads(start, f, a) && Failed(f)
  {
    f := DispatcherGoesOn(start, e, a);
    if e.s.free == [] {
      f := GrowCanFail(start, f, a);
    } else {
      f := SetCanFail(start, f, a);
    }
  }

  lemma GrowCanFail(start: Ending, e: Ending, a: Allowed) returns (f: Ending)
    requires Leads(start, e, a) && AllTold(e) && !e.s.undefined
    requires e.s.dpc.TestLimit? && |e.s.workers| < MAX_WORKER_THREADS
    ensures Leads(start, f, a) && Failed(f)
  {
    f := DispatcherGoesOn(start, e, a);
    f := SetCanFail(start, f, a);
  }

  /** The dispatcher comes to the end of an event for which it takes nobody. */
  lemma EventEnds(start: Ending, e: Ending, a: Allowed) returns (f: Ending)
    requires Leads(start, e, a) && AllTold(e) && !e.s.undefined && !HandsOff(e.s.dpc) && TakesNobody(e.s)
    ensures Leads(start, f, a) && AllTold(f) && !f.s.undefined && f.s.dpc == Idle
    ensures f.s.workers == e.s.workers && f.s.free == e.s.free
  {
    f := e;
    if f.s.dpc.TestLimit? { f := DispatcherGoesOn(start, f, a); }
    if f.s.dpc != Idle { f := DispatcherGoesOn(start, f, a); }
  }

  /** With events, a worker that has been told is given one more item. */
  lemma EventCanFail(start: Ending, e: Ending, a: Allowed) returns (f: Ending)
    requires Leads(start, e, a) && Beginning(e) && !HandsOff(e.s.dpc) && AllParked(e.s) && TakesNobody(e.s) && a.events
    ensures Leads(start, f, a) && Failed(f)
  {
    f := AllToldAndListed(start, e, a);
    f := EventEnds(start, f, a);
    LeadsThen(start, f, Event(0), a);
    f := GetFreeCanFail(start, EndNext(f, Event(0)).value, a);
  }

  /** The event at hand takes a worker. */
  lemma PresentEventCanFail(start: Ending, e: Ending, a: Allowed) returns (f: Ending)
    requires Leads(start, e, a) && Beginning(e) && !HandsOff(e.s.dpc) && AllParked(e.s) && !TakesNobody(e.s)
    ensures Leads(start, f, a) && Failed(f)
  {
    f := AllToldAndListed(start, e, a);
    if e.s.dpc.GetFree? {
      f := GetFreeCanFail(start, f, a);
    } else {
      f := GrowCanFail(start, f, a);
    }
  }

  // ---------------------------------------------------------------- the exact condition

  lemma SurvivorsWork(s: State, a: Allowed, f: Ending)
    requires Inv(s) && !s.undefined && Survives(s, a) && Leads(Start(s), f, a)
    ensures !Failed(f)
  {
    ParkedStart(s, a);
    var steps: seq<EndStep> :| AllPermitted(a, steps) && EndExec(Start(s), steps) == Some(f);
    ParkedRun(Start(s), steps, a);
  }

  /** The dispatcher is not at a worker. */
  lemma OthersCanFail(start: Ending, e: Ending, a: Allowed) returns (f: Ending)
    requires Leads(start, e, a) && Beginning(e) && !HandsOff(e.s.dpc) && !Survives(e.s, a)
    ensures Leads(start, f, a) && Failed(f)
  {
    if !AllParked(e.s) {
      var id :| 0 <= id < |e.s.workers| && e.s.workers[id].pc != Blocked && e.s.workers[id].pc != ReturnFree;
      f := CanFailFrom(start, e, id, a);
    } else if !TakesNobody(e.s) {
      f := PresentEventCanFail(start, e, a);
    } else if a.events {
      f := EventCanFail(start, e, a);
    } else {
      var id :| 0 <= id < |e.s.workers| && e.s.workers[id].pc != ReturnFree;
      f := WakeupCanFail(start, e, id, a);
    }
  }

  function SettledPc(pc: WorkerPc, signalled: bool): WorkerPc {
    if signalled && pc == Blocked then Woken else pc
  }

  /** What a step of a Resume that has written RESUME does: at most it wakes the worker. */
  predicate ResumeStep(s: State, t: State)
    requires HandsOff(s.dpc)
  {
    && |t.workers| == |s.workers|
    && forall j :: 0 <= j < |s.workers| ==>
      t.workers[j].pc == SettledPc(s.workers[j].pc, s.dpc.ResumeSignal? && j == s.dpc.id)
  }

  /** The dispatcher moves, before anybody is told. */
  lemma ResumeGoesOn(start: Ending, e: Ending, a: Allowed) returns (f: Ending)
    requires Leads(start, e, a) && Beginning(e) && (e.s.dpc.ResumeSignal? || e.s.dpc.ResumeUnlock?)
    ensures Leads(start, f, a) && Beginning(f) && ResumeStep(e.s, f.s)
    ensures if e.s.dpc.ResumeSignal? then f.s.dpc == ResumeUnlock(e.s.dpc.id, e.s.dpc.grown) else !HandsOff(f.s.dpc)
  {
    assert e.s.dpc.id < |e.s.workers|;
    LeadsThen(start, e, Dispatching, a);
    NextKeepsInv(e.s, DispatcherMoves);
    f := EndNext(e, Dispatching).value;
  }

  /** A Resume that has written RESUME comes to its end, before anybody is told. */
  lemma ResumeSettles(start: Ending, e: Ending, a: Allowed) returns (f: Ending)
    requires Leads(start, e, a) && Beginning(e) && (e.s.dpc.ResumeSignal? || e.s.dpc.ResumeUnlock?)
    ensures Leads(start, f, a) && Beginning(f) && !HandsOff(f.s.dpc) && ResumeStep(e.s, f.s)
  {
    f := ResumeGoesOn(start, e, a);
    if e.s.dpc.ResumeSignal? {
      f := ResumeGoesOn(start, f, a);
    }
  }

  lemma SettledDoesNotSurvive(s: State, t: State, a: Allowed)
    requires !Survives(s, a) && (s.dpc.ResumeSignal? || s.dpc.ResumeUnlock?) && s.dpc.id < |s.workers|
    requires ResumeStep(s, t) && !HandsOff(t.dpc)
    ensures !Survives(t, a)
  {
    if Survives(t, a) {
      assert forall j :: 0 <= j < |t.workers| ==> t.workers[j].pc == Blocked || t.workers[j].pc == ReturnFree;
    }
  }

  lemma CanFail(s: State, a: Allowed) returns (f: Ending)
    requires Inv(s) && !s.undefined && !Survives(s, a)
    ensures Leads(Start(s), f, a) && Failed(f)
  {
    var start := Start(s);
    LeadsSelf(start, a);
    if !HandsOff(s.dpc) {
      f := OthersCanFail(start, start, a);
    } else if s.dpc.ResumeSignal? || s.dpc.ResumeUnlock? {
      f := ResumeSettles(start, start, a);
      SettledDoesNotSurvive(s, f.s, a);
      f := OthersCanFail(start, f, a);
    } else {
      f := HeldCanFail(start, start, a);
    }
  }

  /** Wherever the dispatcher stands, shutting down works under every schedule exactly when no event takes a worker,
      the one at hand or a later one, and the pool is parked: every worker asleep or on its way back to the free list,
      or, if wakeups may be spurious, every worker on its way back. */
  lemma ShutdownWorksExactlyWhen(s: State, a: Allowed)
    requires Inv(s) && !s.undefined
    ensures (forall f :: Leads(Start(s), f, a) ==> !Failed(f)) <==> Survives(s, a)
  {
    if Survives(s, a) {
      forall f | Leads(Start(s), f, a)
        ensures !Failed(f)
      {
        SurvivorsWork(s, a, f);
      }
    } else {
      var f := CanFail(s, a);
      assert Leads(Start(s), f, a) && Failed(f);
    }
  }

  /** A worker left asleep stays asleep, and JoinThreads waits for it, unless it wakes by itself or is dispatched to. */
  lemma {:induction false} LeftAsleepForEver(e: Ending, id: nat, steps: seq<EndStep>)
    requires AllTold(e) && id < |e.s.workers| && e.s.workers[id].pc == Blocked && EndExec(e, steps).Some?
    requires forall i :: 0 <= i < |steps| ==> steps[i] != Wakeup(id) && steps[i] != Dispatching
    ensures var f := EndExec(e, steps).value; id < |f.s.workers| && f.s.workers[id].pc == Blocked
    decreases |steps|
  {
    if steps != [] {
      LeftAsleepForEver(EndNext(e, steps[0]).value, id, steps[1..]);
    }
  }
}
