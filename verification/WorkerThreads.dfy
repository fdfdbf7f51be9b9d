/**
 The dispatcher thread and the worker threads as one state machine, one atomic step at a time.

 A step is a single read or write of shared memory, a whole critical section of the dispatcher's
 own lock, or one primitive of a worker's mutex and condition variable. Waiting on the condition
 variable releases the mutex and blocks in one step, as IEEE Std 1003.1 asks of pthread_cond_wait.

 A run is any sequence of steps: every interleaving of the dispatcher and of the workers is one.
 */
module WorkerThreads {
  import opened Common
  import Schedules

  /** A receiver, named by its file descriptor. */
  type Socket = int

  /** Who owns a worker's mutex. */
  datatype Holder = Nobody | ByWorker | ByDispatcher

  /** Where a worker thread stands: what it is about to do. */
  datatype WorkerPc =
      // Run: the four tests of the state, each a read of its own
    | TestResume | TestSleepWait | TestSleepTime | TestTerminate
      // Run: fetch receiverSocket and call ReceiveData; inside ReceiveData
    | LoadSocket | Receiving
      // OnWorkComplete
    | CheckCount | WriteResume | PopItem | WriteSleep | ReturnFree
      // Pause
    | PauseLock | PauseTest | PauseWait | Blocked | Woken | PauseUnlock
    | Exited

  /** Where the dispatcher thread stands in ProcessData and in the Resume it calls. */
  datatype DispatcherPc =
    | Idle
    | GetFree(item: Socket)
    | TestLimit(item: Socket)
    | SetSocket(item: Socket, id: nat, grown: bool)
    | ResumeLock(id: nat, grown: bool)
    | ResumeWrite(id: nat, grown: bool)
    | ResumeSignal(id: nat, grown: bool)
    | ResumeUnlock(id: nat, grown: bool)
    | RecordBusy(id: nat)
    | PushItem(item: Socket)

  /** A worker: its control slot, its mutex, its thread, and the history of its work:
      the sockets it was given, and the sockets it called ReceiveData on. */
  datatype Worker = Worker(
    state: WorkerState,
    socket: Option<Socket>,
    lock: Holder,
    pc: WorkerPc,
    given: seq<Socket>,
    served: seq<Socket>)

  /** `undefined` is set by a step whose effect C++ leaves undefined; nothing is claimed afterwards.
      `dispatched`, `handed`, `pushed` and `popped` are histories: the sockets of the events, the sockets put in
      a worker's slot, and the traffic of the pending queue. */
  datatype State = State(
    workers: seq<Worker>,
    free: seq<nat>,
    busy: seq<nat>,
    pending: seq<Socket>,
    dpc: DispatcherPc,
    undefined: bool,
    dispatched: seq<Socket>,
    handed: seq<Socket>,
    pushed: seq<Socket>,
    popped: seq<Socket>)

  datatype Step =
    | Dispatch(item: Socket)     // the next event of a batch
    | AddWorker                  // one round of AddWorkers
    | DispatcherMoves
    | WorkerMoves(id: nat)
    | SpuriousWakeup(id: nat)

  const NEW_WORKER := Worker(SLEEP_WAIT, None, Nobody, TestResume, [], [])

  function Init(): State {
    State(seq(INITIAL_WORKERS, _ => NEW_WORKER), seq(INITIAL_WORKERS, i => i), [], [], Idle, false, [], [], [], [])
  }

  function Put(s: State, id: nat, w: Worker): State
    requires id < |s.workers|
  {
    s.(workers := s.workers[id := w])
  }

  predicate Sleeping(state: WorkerState) {
    state == SLEEP_WAIT || state == SLEEP_TIME
  }

  /** What one step of a worker thread does: to its worker, and to the rest of the state. */
  datatype Outcome =
    | Moves(w: Worker)
    | Pops(w: Worker)       // takes the head of the pending queue
    | Returns(w: Worker)    // goes to the back of the free list
    | Undefined             // C++ defines no effect

  /** One step of a worker's thread; None when the thread is blocked or has exited. */
  function RunThread(w: Worker, pending: seq<Socket>): Option<Outcome> {
    match w.pc
    case TestResume =>
      Some(Moves(w.(pc := if w.state == RESUME then LoadSocket else TestSleepWait)))
    case TestSleepWait =>
      Some(Moves(w.(pc := if w.state == SLEEP_WAIT then PauseLock else TestSleepTime)))
    case TestSleepTime =>
      Some(Moves(w.(pc := if w.state == SLEEP_TIME then PauseLock else TestTerminate)))
    case TestTerminate =>
      Some(Moves(w.(pc := if w.state == TERMINATE then Exited else TestResume)))
    case LoadSocket =>
      if w.socket.None? then Some(Undefined)
      else Some(Moves(w.(pc := Receiving, served := w.served + [w.socket.value])))
    case Receiving =>
      Some(Moves(w.(pc := CheckCount)))
    case CheckCount =>
      Some(Moves(w.(pc := if |pending| > 0 then WriteResume else WriteSleep)))
    case WriteResume =>
      Some(Moves(w.(state := RESUME, pc := PopItem)))
    case PopItem =>
      if pending == [] then Some(Undefined)
      else Some(Pops(w.(socket := Some(pending[0]), given := w.given + [pending[0]], pc := TestResume)))
    case WriteSleep =>
      Some(Moves(w.(state := SLEEP_WAIT, pc := ReturnFree)))
    case ReturnFree =>
      Some(Returns(w.(pc := TestResume)))
    case PauseLock =>
      if w.lock != Nobody then None else Some(Moves(w.(lock := ByWorker, pc := PauseTest)))
    case PauseTest =>
      Some(Moves(w.(pc := if Sleeping(w.state) then PauseWait else PauseUnlock)))
    case PauseWait =>
      Some(Moves(w.(lock := Nobody, pc := Blocked)))
    case Blocked => None
    case Woken =>
      if w.lock != Nobody then None else Some(Moves(w.(lock := ByWorker, pc := PauseTest)))
    case PauseUnlock =>
      Some(Moves(w.(lock := Nobody, pc := TestResume)))
    case Exited => None
  }

  function Apply(s: State, id: nat, outcome: Outcome): State
    requires id < |s.workers|
  {
    match outcome
    case Moves(w) => Put(s, id, w)
    case Pops(w) =>
      if s.pending == [] then s.(undefined := true)
      else
        Put(s, id, w).(pending := s.pending[1..],
          popped := s.popped + [s.pending[0]], handed := s.handed + [s.pending[0]])
    case Returns(w) => Put(s, id, w).(free := s.free + [id])
    case Undefined => s.(undefined := true)
  }

  /** A step of worker `id` in the whole state. */
  function WorkerStep(s: State, id: nat): Option<State>
    requires id < |s.workers|
  {
    var outcome := RunThread(s.workers[id], s.pending);
    if outcome.None? then None else Some(Apply(s, id, outcome.value))
  }

  /** What a signal, or a spurious wakeup, does to a thread. */
  function Wake(w: Worker): Worker {
    if w.pc == Blocked then w.(pc := Woken) else w
  }

  predicate HandsOff(d: DispatcherPc) {
    d.SetSocket? || d.ResumeLock? || d.ResumeWrite? || d.ResumeSignal? || d.ResumeUnlock?
  }

  /** The dispatcher's steps on one worker: write its socket, then Resume.
      None when the worker's mutex is taken. */
  function HandOff(d: DispatcherPc, w: Worker): Option<(Worker, DispatcherPc)>
    requires HandsOff(d)
  {
    match d
    case SetSocket(item, id, g) =>
      Some((w.(socket := Some(item), given := w.given + [item]), ResumeLock(id, g)))
    case ResumeLock(id, g) =>
      if w.lock != Nobody then None else Some((w.(lock := ByDispatcher), ResumeWrite(id, g)))
    case ResumeWrite(id, g) => Some((w.(state := RESUME), ResumeSignal(id, g)))
    case ResumeSignal(id, g) => Some((Wake(w), ResumeUnlock(id, g)))
    case ResumeUnlock(id, g) => Some((w.(lock := Nobody), if g then RecordBusy(id) else Idle))
  }

  function HandOffStep(s: State): Option<State>
    requires HandsOff(s.dpc) && s.dpc.id < |s.workers|
  {
    var next := HandOff(s.dpc, s.workers[s.dpc.id]);
    if next.None? then None
    else
      Some(Put(s, s.dpc.id, next.value.0).(dpc := next.value.1,
        handed := if s.dpc.SetSocket? then s.handed + [s.dpc.item] else s.handed))
  }

  /** The dispatcher's other steps: take a free worker, create one, or queue the item. */
  function AssignStep(s: State): Option<State>
    requires !HandsOff(s.dpc)
  {
    match s.dpc
    case Idle => None
    case GetFree(item) =>
      if |s.free| > 0 then
        Some(s.(free := s.free[1..], busy := s.busy + [s.free[0]], dpc := SetSocket(item, s.free[0], false)))
      else
        Some(s.(dpc := TestLimit(item)))
    case TestLimit(item) =>
      if |s.workers| < MAX_WORKER_THREADS then
        Some(s.(workers := s.workers + [NEW_WORKER], dpc := SetSocket(item, |s.workers|, true)))
      else
        Some(s.(dpc := PushItem(item)))
    case PushItem(item) =>
      Some(s.(pending := s.pending + [item], pushed := s.pushed + [item], dpc := Idle))
    case RecordBusy(id) =>
      Some(s.(busy := s.busy + [id], dpc := Idle))
  }

  /** One step of the dispatcher thread; None when it waits for an event or for a mutex. */
  function DispatcherStep(s: State): Option<State> {
    if !HandsOff(s.dpc) then AssignStep(s)
    else if s.dpc.id < |s.workers| then HandOffStep(s)
    else None
  }

  /** The state after a step, or None when the step cannot be taken. */
  function Next(s: State, step: Step): Option<State> {
    if s.undefined then None
    else
      match step
      case Dispatch(item) =>
        if s.dpc != Idle then None
        else Some(s.(dpc := GetFree(item), dispatched := s.dispatched + [item]))
      case AddWorker =>
        if s.dpc != Idle then None
        else Some(s.(workers := s.workers + [NEW_WORKER], free := s.free + [|s.workers|]))
      case DispatcherMoves => DispatcherStep(s)
      case WorkerMoves(id) => if id < |s.workers| then WorkerStep(s, id) else None
      case SpuriousWakeup(id) =>
        if id < |s.workers| && s.workers[id].pc == Blocked then Some(Put(s, id, Wake(s.workers[id]))) else None
  }

  /** The state after a schedule, or None when some step of it cannot be taken. */
  function Exec(s: State, steps: seq<Step>): Option<State> {
    Schedules.Run(Next, s, steps)
  }

  // ---------------------------------------------------------------- who owns a worker

  /** What the dispatcher is about to do to a worker. */
  datatype Role = Uninvolved | Setting | Locking | Writing | Signalling | Unlocking

  function RoleOf(d: DispatcherPc, id: nat): Role {
    if !HandsOff(d) || d.id != id then Uninvolved
    else
      match d
      case SetSocket(_, _, _) => Setting
      case ResumeLock(_, _) => Locking
      case ResumeWrite(_, _) => Writing
      case ResumeSignal(_, _) => Signalling
      case ResumeUnlock(_, _) => Unlocking
  }

  /** Taken by the dispatcher, and not yet told to resume. */
  predicate Held(role: Role) { role.Setting? || role.Locking? || role.Writing? }

  predicate InService(w: Worker) { w.state == RESUME }

  /** Put to sleep by OnWorkComplete, and not yet returned to the free list. */
  predicate Parking(w: Worker) { w.pc == ReturnFree }

  function One(b: bool): nat { if b then 1 else 0 }

  // ---------------------------------------------------------------- the invariant

  /** From the call of ReceiveData to the step before OnWorkComplete's pop or its write of SLEEP_WAIT. */
  predicate PastLoad(pc: WorkerPc) {
    pc.Receiving? || pc.CheckCount? || pc.WriteResume? || pc.PopItem? || pc.WriteSleep?
  }

  /** The worker has a socket in its slot that it has not called ReceiveData on. */
  predicate Outstanding(w: Worker, role: Role) {
    role.Locking? || role.Writing? || (InService(w) && !PastLoad(w.pc))
  }

  predicate HoldsMutex(pc: WorkerPc) {
    pc.PauseTest? || pc.PauseWait? || pc.PauseUnlock?
  }

  /** The slot holds the last socket given, and the worker has called ReceiveData on all it was given, but for
      the last one while that is outstanding. */
  predicate HistoryInv(w: Worker, role: Role) {
    && w.socket == (if w.given == [] then None else Some(w.given[|w.given| - 1]))
    && (if Outstanding(w, role) then w.given != [] && w.served == w.given[..|w.given| - 1]
        else w.served == w.given)
    && (PastLoad(w.pc) || Parking(w) ==> w.given != [])
  }

  /** One owner, and a state that agrees with where the thread stands. */
  predicate OwnerInv(w: Worker, role: Role, listed: bool) {
    && (w.state == SLEEP_WAIT || w.state == RESUME) && w.pc != Exited
    && One(listed) + One(Held(role)) + One(InService(w)) + One(Parking(w)) == 1
    && (PastLoad(w.pc) || w.pc == LoadSocket ==> w.state == RESUME)
  }

  /** The mutex is held where the code holds it; a thread about to wait has not been resumed, and a thread
      that waits and has been resumed is about to be signalled. */
  predicate MutexInv(w: Worker, role: Role) {
    && (w.lock == ByWorker <==> HoldsMutex(w.pc))
    && (w.lock == ByDispatcher <==> role.Writing? || role.Signalling? || role.Unlocking?)
    && (w.pc == PauseWait ==> w.state == SLEEP_WAIT)
    && (w.pc == Blocked && w.state == RESUME ==> role.Signalling?)
  }

  /** The invariant of one worker, given what the dispatcher is about to do to it and whether it is listed free. */
  predicate WorkerInv(w: Worker, role: Role, listed: bool) {
    OwnerInv(w, role, listed) && MutexInv(w, role) && HistoryInv(w, role)
  }

  /** The dispatcher has an event, and no worker for it yet. */
  predicate Deciding(d: DispatcherPc) {
    d.GetFree? || d.TestLimit? || d.PushItem?
  }

  predicate DispatcherInv(s: State) {
    && (HandsOff(s.dpc) || s.dpc.RecordBusy? ==> s.dpc.id < |s.workers|)
    && (Deciding(s.dpc) ==> s.dispatched != [] && s.dispatched[|s.dispatched| - 1] == s.dpc.item)
  }

  predicate FreeListInv(s: State) {
    && (forall i :: 0 <= i < |s.free| ==> s.free[i] < |s.workers|)
    && (forall i, j :: 0 <= i < j < |s.free| ==> s.free[i] != s.free[j])
  }

  predicate WorkersInv(s: State) {
    forall id :: 0 <= id < |s.workers| ==> WorkerInv(s.workers[id], RoleOf(s.dpc, id), id in s.free)
  }

  /** Who owns which worker, and what each has to do. */
  predicate Inv(s: State) {
    FreeListInv(s) && DispatcherInv(s) && WorkersInv(s)
  }

  /** The sockets ever given to the workers of a list. */
  ghost function AllGiven(workers: seq<Worker>): multiset<Socket> {
    if workers == [] then multiset{}
    else AllGiven(workers[..|workers| - 1]) + multiset(workers[|workers| - 1].given)
  }

  /** The socket of the event being dispatched, while it is in no slot and not in the queue. */
  ghost function InHand(d: DispatcherPc): multiset<Socket> {
    if Deciding(d) || d.SetSocket? then multiset{d.item} else multiset{}
  }

  /** Every dispatched socket is in exactly one place. */
  ghost predicate NothingLost(s: State) {
    multiset(s.dispatched) == AllGiven(s.workers) + multiset(s.pending) + InHand(s.dpc)
  }

  /** The queue is first in, first out. */
  predicate QueueInv(s: State) {
    s.popped + s.pending == s.pushed
  }
}
