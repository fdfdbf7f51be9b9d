/**
 What every interleaving of the dispatcher and the workers keeps: one owner for every worker,
 no lost wakeup, every dispatched socket served exactly once, and progress of every hand-off.
 */
module Handshake {
  import opened Common
  import opened WorkerThreads

  // ---------------------------------------------------------------- conservation of work

  lemma {:induction false} AllGivenUpdate(ws: seq<Worker>, id: nat, w: Worker, items: seq<Socket>)
    requires id < |ws| && w.given == ws[id].given + items
    ensures AllGiven(ws[id := w]) == AllGiven(ws) + multiset(items)
  {
    var n := |ws| - 1;
    if id == n {
      assert ws[id := w][..n] == ws[..n];
    } else {
      assert ws[id := w][..n] == ws[..n][id := w];
      AllGivenUpdate(ws[..n], id, w, items);
    }
  }

  lemma AllGivenAppend(ws: seq<Worker>, w: Worker)
    ensures AllGiven(ws + [w]) == AllGiven(ws) + multiset(w.given)
  {
    assert (ws + [w])[..|ws|] == ws;
  }

  lemma {:induction false} AllGivenInit(n: nat)
    ensures AllGiven(seq(n, _ => NEW_WORKER)) == multiset{}
  {
    if n > 0 {
      var ws := seq(n, _ => NEW_WORKER);
      assert ws[..n - 1] == seq(n - 1, _ => NEW_WORKER);
      AllGivenInit(n - 1);
    }
  }

  /** A worker whose history of given sockets is unchanged leaves the total unchanged. */
  lemma PutKeepsAllGiven(s: State, id: nat, w: Worker)
    requires id < |s.workers| && w.given == s.workers[id].given
    ensures AllGiven(Put(s, id, w).workers) == AllGiven(s.workers)
  {
    assert w.given == s.workers[id].given + [];
    AllGivenUpdate(s.workers, id, w, []);
  }

  /** What a step may do to the history of given sockets, and to the queue with it. */
  predicate GivesRightly(w: Worker, outcome: Outcome, pending: seq<Socket>) {
    match outcome
    case Moves(w') => w'.given == w.given
    case Returns(w') => w'.given == w.given
    case Pops(w') => pending != [] && w'.given == w.given + [pending[0]]
    case Undefined => true
  }

  lemma RunThreadGivesRightly(w: Worker, pending: seq<Socket>)
    requires RunThread(w, pending).Some?
    ensures GivesRightly(w, RunThread(w, pending).value, pending)
  {
  }

  lemma ApplyKeepsWork(s: State, id: nat, outcome: Outcome)
    requires id < |s.workers| && GivesRightly(s.workers[id], outcome, s.pending) && NothingLost(s)
    ensures NothingLost(Apply(s, id, outcome))
  {
    match outcome
    case Moves(w) => PutKeepsAllGiven(s, id, w);
    case Returns(w) => PutKeepsAllGiven(s, id, w);
    case Pops(w) =>
      AllGivenUpdate(s.workers, id, w, [s.pending[0]]);
      assert s.pending == [s.pending[0]] + s.pending[1..];
    case Undefined =>
  }

  lemma HandOffGivesRightly(d: DispatcherPc, w: Worker)
    requires HandsOff(d) && HandOff(d, w).Some?
    ensures var (w', d') := HandOff(d, w).value;
      w'.given == w.given + (if d.SetSocket? then [d.item] else []) && InHand(d') == multiset{}
  {
  }

  /** Where the work in hand is put, the rest staying where it is. */
  lemma HandedOn(s: State, t: State, items: multiset<Socket>)
    requires NothingLost(s) && t.dispatched == s.dispatched && InHand(s.dpc) == items + InHand(t.dpc)
    requires AllGiven(t.workers) + multiset(t.pending) == AllGiven(s.workers) + multiset(s.pending) + items
    ensures NothingLost(t)
  {
  }

  /** What the dispatcher's step on a worker touches, as far as work goes. */
  lemma HandOffTouches(s: State, id: nat, items: seq<Socket>) returns (w: Worker)
    requires HandsOff(s.dpc) && id == s.dpc.id && id < |s.workers| && HandOffStep(s).Some?
    requires items == if s.dpc.SetSocket? then [s.dpc.item] else []
    ensures var t := HandOffStep(s).value;
      && t.workers == s.workers[id := w] && w.given == s.workers[id].given + items
      && t.pending == s.pending && t.dispatched == s.dispatched
    ensures InHand(s.dpc) == multiset(items) && InHand(HandOffStep(s).value.dpc) == multiset{}
  {
    HandOffGivesRightly(s.dpc, s.workers[id]);
    w := HandOff(s.dpc, s.workers[id]).value.0;
  }

  lemma HandOffKeepsWork(s: State)
    requires HandsOff(s.dpc) && s.dpc.id < |s.workers| && HandOffStep(s).Some? && NothingLost(s)
    ensures NothingLost(HandOffStep(s).value)
  {
    var id, items := s.dpc.id, if s.dpc.SetSocket? then [s.dpc.item] else [];
    var w := HandOffTouches(s, id, items);
    WorkGiven(s, HandOffStep(s).value, id, w, items);
  }

  lemma WorkGiven(s: State, t: State, id: nat, w: Worker, items: seq<Socket>)
    requires NothingLost(s) && id < |s.workers|
    requires t.workers == s.workers[id := w] && w.given == s.workers[id].given + items
    requires t.pending == s.pending && t.dispatched == s.dispatched
    requires InHand(s.dpc) == multiset(items) && InHand(t.dpc) == multiset{}
    ensures NothingLost(t)
  {
    AllGivenUpdate(s.workers, id, w, items);
    HandedOn(s, t, multiset(items));
  }

  lemma AssignKeepsWork(s: State)
    requires !HandsOff(s.dpc) && AssignStep(s).Some? && NothingLost(s)
    ensures NothingLost(AssignStep(s).value)
  {
    if s.dpc.PushItem? {
      PushKeepsWork(s, s.dpc.item);
    } else {
      AssignTouches(s);
      TakeKeepsWork(s, AssignStep(s).value);
    }
  }

  lemma AssignTouches(s: State)
    requires !HandsOff(s.dpc) && !s.dpc.PushItem? && AssignStep(s).Some?
    ensures var t := AssignStep(s).value;
      && t.dispatched == s.dispatched && t.pending == s.pending && InHand(s.dpc) == InHand(t.dpc)
      && (t.workers == s.workers || t.workers == s.workers + [NEW_WORKER])
  {
    assert InHand(s.dpc) == InHand(AssignStep(s).value.dpc) by {
      if s.dpc.GetFree? && s.free != [] { assert AssignStep(s).value.dpc == SetSocket(s.dpc.item, s.free[0], false); }
    }
  }

  lemma PushKeepsWork(s: State, item: Socket)
    requires NothingLost(s) && s.dpc == PushItem(item)
    ensures NothingLost(s.(pending := s.pending + [item], pushed := s.pushed + [item], dpc := Idle))
  {
  }

  /** With the queue untouched and the work still in hand, only a new worker may join. */
  lemma TakeKeepsWork(s: State, t: State)
    requires NothingLost(s) && t.dispatched == s.dispatched && t.pending == s.pending && InHand(s.dpc) == InHand(t.dpc)
    requires t.workers == s.workers || t.workers == s.workers + [NEW_WORKER]
    ensures NothingLost(t)
  {
    NewWorkerKeepsAllGiven(s.workers);
  }

  lemma NewWorkerKeepsAllGiven(ws: seq<Worker>)
    ensures AllGiven(ws + [NEW_WORKER]) == AllGiven(ws)
  {
    AllGivenAppend(ws, NEW_WORKER);
    assert multiset(NEW_WORKER.given) == multiset{};
  }

  lemma NextKeepsWork(s: State, step: Step)
    requires NothingLost(s) && Next(s, step).Some?
    ensures NothingLost(Next(s, step).value)
  {
    match step
    case Dispatch(item) => ArrivalKeepsWork(s, item);
    case AddWorker => AddWorkerKeepsWork(s);
    case DispatcherMoves =>
      if HandsOff(s.dpc) { HandOffKeepsWork(s); } else { AssignKeepsWork(s); }
    case WorkerMoves(id) =>
      RunThreadGivesRightly(s.workers[id], s.pending);
      ApplyKeepsWork(s, id, RunThread(s.workers[id], s.pending).value);
    case SpuriousWakeup(id) =>
      ApplyKeepsWork(s, id, Moves(Wake(s.workers[id])));
  }

  lemma ArrivalKeepsWork(s: State, item: Socket)
    requires NothingLost(s) && s.dpc == Idle
    ensures NothingLost(s.(dpc := GetFree(item), dispatched := s.dispatched + [item]))
  {
  }

  lemma AddWorkerKeepsWork(s: State)
    requires NothingLost(s) && s.dpc == Idle
    ensures NothingLost(s.(workers := s.workers + [NEW_WORKER], free := s.free + [|s.workers|]))
  {
    NewWorkerKeepsAllGiven(s.workers);
  }

  lemma NextKeepsQueue(s: State, step: Step)
    requires QueueInv(s) && Next(s, step).Some?
    ensures QueueInv(Next(s, step).value)
  {
    if step.WorkerMoves? {
      var o := RunThread(s.workers[step.id], s.pending).value;
      if o.Pops? && s.pending != [] { assert s.pending == [s.pending[0]] + s.pending[1..]; }
    }
  }

  // ---------------------------------------------------------------- the invariant, step by step

  /** ReceiveData is called on the socket that is owed. */
  lemma LoadKeepsHistory(w: Worker, role: Role, listed: bool, pending: seq<Socket>)
    requires WorkerInv(w, role, listed) && w.pc == LoadSocket
    ensures RunThread(w, pending).Some? && RunThread(w, pending).value.Moves?
    ensures HistoryInv(RunThread(w, pending).value.w, role)
  {
  }

  lemma PopKeepsHistory(w: Worker, role: Role, listed: bool, pending: seq<Socket>)
    requires WorkerInv(w, role, listed) && w.pc == PopItem && pending != []
    ensures RunThread(w, pending).Some? && RunThread(w, pending).value.Pops?
    ensures HistoryInv(RunThread(w, pending).value.w, role)
  {
  }

  /** The other steps leave the histories alone, and what is owed. */
  lemma OtherStepsOweTheSame(w: Worker, role: Role, listed: bool, pending: seq<Socket>)
    requires OwnerInv(w, role, listed) && w.pc != LoadSocket && w.pc != PopItem && RunThread(w, pending).Some?
    ensures var o := RunThread(w, pending).value;
      && !o.Undefined? && SameHistory(w, o.w) && Outstanding(o.w, role) == Outstanding(w, role)
      && (PastLoad(o.w.pc) || Parking(o.w) ==> PastLoad(w.pc) || Parking(w))
  {
  }

  predicate SameHistory(w: Worker, w': Worker) {
    w'.socket == w.socket && w'.given == w.given && w'.served == w.served
  }

  lemma SameHistoryKept(w: Worker, w': Worker, role: Role)
    requires HistoryInv(w, role) && SameHistory(w, w') && Outstanding(w', role) == Outstanding(w, role)
    requires PastLoad(w'.pc) || Parking(w') ==> PastLoad(w.pc) || Parking(w)
    ensures HistoryInv(w', role)
  {
  }

  lemma RunThreadKeepsHistory(w: Worker, role: Role, listed: bool, pending: seq<Socket>)
    requires WorkerInv(w, role, listed) && RunThread(w, pending).Some?
    ensures var o := RunThread(w, pending).value;
      if o.Undefined? then w.pc == PopItem && pending == [] else HistoryInv(o.w, role)
  {
    if w.pc == LoadSocket {
      LoadKeepsHistory(w, role, listed, pending);
    } else if w.pc == PopItem {
      if pending != [] { PopKeepsHistory(w, role, listed, pending); }
    } else {
      OtherStepsOweTheSame(w, role, listed, pending);
      SameHistoryKept(w, RunThread(w, pending).value.w, role);
    }
  }

  lemma RunThreadKeepsMutex(w: Worker, role: Role, listed: bool, pending: seq<Socket>)
    requires OwnerInv(w, role, listed) && MutexInv(w, role) && RunThread(w, pending).Some?
    ensures var o := RunThread(w, pending).value; o.Undefined? || MutexInv(o.w, role)
  {
  }

  lemma RunThreadKeepsOwner(w: Worker, role: Role, listed: bool, pending: seq<Socket>)
    requires OwnerInv(w, role, listed) && RunThread(w, pending).Some?
    ensures var o := RunThread(w, pending).value;
      && (o.Moves? || o.Pops? ==> OwnerInv(o.w, role, listed))
      && (o.Returns? ==> !listed && OwnerInv(o.w, role, true))
  {
  }

  /** Any step of a worker's thread keeps the worker's invariant. */
  lemma RunThreadKeepsInv(w: Worker, role: Role, listed: bool, pending: seq<Socket>)
    requires WorkerInv(w, role, listed) && RunThread(w, pending).Some?
    ensures var o := RunThread(w, pending).value;
      && (o.Moves? || o.Pops? ==> WorkerInv(o.w, role, listed))
      && (o.Returns? ==> !listed && WorkerInv(o.w, role, true))
      && (o.Undefined? ==> w.pc == PopItem && pending == [])
  {
    RunThreadKeepsHistory(w, role, listed, pending);
    RunThreadKeepsMutex(w, role, listed, pending);
    RunThreadKeepsOwner(w, role, listed, pending);
  }

  lemma HandOffKeepsOwner(d: DispatcherPc, w: Worker, listed: bool)
    requires HandsOff(d) && OwnerInv(w, RoleOf(d, d.id), listed) && HandOff(d, w).Some?
    ensures var (w', d') := HandOff(d, w).value; OwnerInv(w', RoleOf(d', d.id), listed)
  {
  }

  lemma HandOffKeepsMutex(d: DispatcherPc, w: Worker, listed: bool)
    requires HandsOff(d) && WorkerInv(w, RoleOf(d, d.id), listed) && HandOff(d, w).Some?
    ensures var (w', d') := HandOff(d, w).value; MutexInv(w', RoleOf(d', d.id))
  {
  }

  lemma HandOffKeepsHistory(d: DispatcherPc, w: Worker, listed: bool)
    requires HandsOff(d) && WorkerInv(w, RoleOf(d, d.id), listed) && HandOff(d, w).Some?
    ensures var (w', d') := HandOff(d, w).value; HistoryInv(w', RoleOf(d', d.id))
  {
  }

  /** Any step of the dispatcher on a worker keeps the worker's invariant. */
  lemma HandOffKeepsInv(d: DispatcherPc, w: Worker, listed: bool)
    requires HandsOff(d) && WorkerInv(w, RoleOf(d, d.id), listed) && HandOff(d, w).Some?
    ensures var (w', d') := HandOff(d, w).value; WorkerInv(w', RoleOf(d', d.id), listed)
    ensures var (_, d') := HandOff(d, w).value;
      && (forall j: nat | j != d.id :: RoleOf(d', j) == RoleOf(d, j) == Uninvolved)
      && (HandsOff(d') || d'.RecordBusy? ==> d'.id == d.id)
  {
    HandOffKeepsOwner(d, w, listed);
    HandOffKeepsMutex(d, w, listed);
    HandOffKeepsHistory(d, w, listed);
  }

  lemma ApplyKeepsInv(s: State, id: nat, outcome: Outcome)
    requires Inv(s) && id < |s.workers|
    requires outcome.Moves? || outcome.Pops? ==> WorkerInv(outcome.w, RoleOf(s.dpc, id), id in s.free)
    requires outcome.Returns? ==> id !in s.free && WorkerInv(outcome.w, RoleOf(s.dpc, id), true)
    ensures Inv(Apply(s, id, outcome))
  {
  }

  lemma WorkerStepKeepsInv(s: State, id: nat)
    requires Inv(s) && id < |s.workers| && WorkerStep(s, id).Some?
    ensures Inv(WorkerStep(s, id).value)
  {
    RunThreadKeepsInv(s.workers[id], RoleOf(s.dpc, id), id in s.free, s.pending);
    ApplyKeepsInv(s, id, RunThread(s.workers[id], s.pending).value);
  }

  /** Taking the front worker unlists that worker and no other. */
  lemma PopFront(s: State)
    requires FreeListInv(s) && s.free != []
    ensures forall id: nat :: id in s.free[1..] <==> id in s.free && id != s.free[0]
  {
    assert s.free == [s.free[0]] + s.free[1..];
  }

  lemma HandOffStepKeepsInv(s: State)
    requires Inv(s) && HandsOff(s.dpc) && HandOffStep(s).Some?
    ensures Inv(HandOffStep(s).value)
  {
    HandOffKeepsInv(s.dpc, s.workers[s.dpc.id], s.dpc.id in s.free);
  }

  lemma TakeFreeKeepsInv(s: State, item: Socket, busy: seq<nat>)
    requires Inv(s) && !HandsOff(s.dpc) && s.free != []
    ensures Inv(s.(free := s.free[1..], busy := busy, dpc := SetSocket(item, s.free[0], false)))
  {
    PopFront(s);
  }

  lemma GrowKeepsInv(s: State, item: Socket)
    requires Inv(s) && !HandsOff(s.dpc)
    ensures Inv(s.(workers := s.workers + [NEW_WORKER], dpc := SetSocket(item, |s.workers|, true)))
  {
  }

  lemma AssignKeepsInv(s: State)
    requires Inv(s) && !HandsOff(s.dpc) && AssignStep(s).Some?
    ensures Inv(AssignStep(s).value)
  {
    if s.dpc.GetFree? && s.free != [] { TakeFreeKeepsInv(s, s.dpc.item, s.busy + [s.free[0]]); }
    else if s.dpc.TestLimit? { GrowKeepsInv(s, s.dpc.item); }
  }

  lemma AddWorkerKeepsInv(s: State)
    requires Inv(s) && s.dpc.Idle?
    ensures Inv(s.(workers := s.workers + [NEW_WORKER], free := s.free + [|s.workers|]))
  {
  }

  lemma WakeKeepsInv(w: Worker, role: Role, listed: bool)
    requires WorkerInv(w, role, listed)
    ensures WorkerInv(Wake(w), role, listed)
  {
  }

  lemma NextKeepsInv(s: State, step: Step)
    requires Inv(s) && Next(s, step).Some?
    ensures Inv(Next(s, step).value)
  {
    match step
    case Dispatch(item) =>
    case AddWorker => AddWorkerKeepsInv(s);
    case DispatcherMoves =>
      if HandsOff(s.dpc) { HandOffStepKeepsInv(s); } else { AssignKeepsInv(s); }
    case WorkerMoves(id) => WorkerStepKeepsInv(s, id);
    case SpuriousWakeup(id) =>
      WakeKeepsInv(s.workers[id], RoleOf(s.dpc, id), id in s.free);
      ApplyKeepsInv(s, id, Moves(Wake(s.workers[id])));
  }

  lemma InitInv()
    ensures Inv(Init())
  {
    forall id: nat | id < INITIAL_WORKERS
      ensures id in Init().free && WorkerInv(NEW_WORKER, Uninvolved, true)
    {
      assert Init().free[id] == id;
    }
  }

  lemma InitWork()
    ensures NothingLost(Init()) && QueueInv(Init())
  {
    AllGivenInit(INITIAL_WORKERS);
    assert AllGiven(Init().workers) == multiset{};
  }

  lemma {:induction false} ExecKeepsInv(s: State, steps: seq<Step>)
    requires Inv(s) && Exec(s, steps).Some?
    ensures Inv(Exec(s, steps).value)
    decreases |steps|
  {
    if steps != [] {
      NextKeepsInv(s, steps[0]);
      ExecKeepsInv(Next(s, steps[0]).value, steps[1..]);
    }
  }

  lemma {:induction false} ExecKeepsWork(s: State, steps: seq<Step>)
    requires NothingLost(s) && QueueInv(s) && Exec(s, steps).Some?
    ensures NothingLost(Exec(s, steps).value) && QueueInv(Exec(s, steps).value)
    decreases |steps|
  {
    if steps != [] {
      NextKeepsWork(s, steps[0]);
      NextKeepsQueue(s, steps[0]);
      ExecKeepsWork(Next(s, steps[0]).value, steps[1..]);
    }
  }

  /** Some schedule leads from the constructed dispatcher to this state. */
  ghost predicate Reachable(s: State) {
    exists steps: seq<Step> :: Exec(Init(), steps) == Some(s)
  }

  lemma ReachableInv(s: State)
    requires Reachable(s)
    ensures Inv(s)
  {
    var steps: seq<Step> :| Exec(Init(), steps) == Some(s);
    InitInv();
    ExecKeepsInv(Init(), steps);
  }

  // ---------------------------------------------------------------- what every schedule guarantees

  /** A worker has one owner at every moment, and is listed free at most once. When OnWorkComplete is about
      to write SLEEP_WAIT, the dispatcher does not hold the worker and the worker owes no service: the write
      can never undo a Resume. */
  lemma OneOwner(s: State, id: nat)
    requires Reachable(s) && id < |s.workers|
    ensures var w := s.workers[id];
      && One(id in s.free) + One(Held(RoleOf(s.dpc, id))) + One(InService(w)) + One(Parking(w)) == 1
      && (w.pc == WriteSleep ==> id !in s.free && !Held(RoleOf(s.dpc, id)) && w.given == w.served)
    ensures forall i, j :: 0 <= i < j < |s.free| ==> s.free[i] != s.free[j]
  {
    ReachableInv(s);
  }

  /** A worker told to resume is asleep on its condition variable only while the signal is still to come. */
  lemma NoLostWakeup(s: State, id: nat)
    requires Reachable(s) && id < |s.workers|
    requires s.workers[id].pc == Blocked && s.workers[id].state == RESUME
    ensures s.dpc.ResumeSignal? && s.dpc.id == id
  {
    ReachableInv(s);
  }

  /** A worker serves the sockets it is given, in that order, each once, with at most the last one owed;
      a worker about to read its slot finds the socket owed there, never an older one. */
  lemma ServesWhatItIsGiven(s: State, id: nat)
    requires Reachable(s) && id < |s.workers|
    ensures var w := s.workers[id];
      && |w.served| <= |w.given| <= |w.served| + 1 && w.served == w.given[..|w.served|]
      && (w.pc == LoadSocket ==> w.socket.Some? && w.given == w.served + [w.socket.value])
  {
    ReachableInv(s);
  }

  /** No dispatched socket is lost or duplicated: each is with a worker, queued, or in the dispatcher's hand;
      and the queue gives back what was pushed in the order of the pushes. */
  lemma NoWorkLost(s: State)
    requires Reachable(s)
    ensures multiset(s.dispatched) == AllGiven(s.workers) + multiset(s.pending) + InHand(s.dpc)
    ensures s.popped + s.pending == s.pushed
  {
    var steps: seq<Step> :| Exec(Init(), steps) == Some(s);
    InitWork();
    ExecKeepsWork(Init(), steps);
  }

  /** The one step with undefined effect is a pop of the empty queue. */
  lemma OnlyEmptyPopIsUndefined(s: State, step: Step)
    requires Reachable(s) && Next(s, step).Some?
    ensures Next(s, step).value.undefined <==>
      step.WorkerMoves? && s.workers[step.id].pc == PopItem && s.pending == []
  {
    ReachableInv(s);
    if step.WorkerMoves? {
      RunThreadKeepsInv(s.workers[step.id], RoleOf(s.dpc, step.id), step.id in s.free, s.pending);
    }
  }

  // ---------------------------------------------------------------- progress of a hand-off

  /** How many steps of its own a resumed worker is away from calling ReceiveData. */
  function StepsToService(pc: WorkerPc): nat {
    match pc
    case LoadSocket => 1
    case TestResume => 2
    case PauseUnlock => 3
    case TestTerminate => 3
    case PauseTest => 4
    case TestSleepTime => 4
    case PauseLock => 5
    case Woken => 5
    case TestSleepWait => 5
    case Blocked => 6
    case _ => 0
  }

  /** The same, with the steps of the Resume that is still running on the worker. */
  function Delay(w: Worker, role: Role): nat {
    StepsToService(w.pc) + (if role.Signalling? then 2 else if role.Unlocking? then 1 else 0)
  }

  predicate Owes(s: State, id: nat) {
    id < |s.workers| && InService(s.workers[id]) && !PastLoad(s.workers[id].pc)
  }

  function DelayOf(s: State, id: nat): nat
    requires id < |s.workers|
  {
    Delay(s.workers[id], RoleOf(s.dpc, id))
  }

  /** A step of the worker, or of the Resume running on it. */
  predicate OnBehalfOf(s: State, step: Step, id: nat) {
    step == WorkerMoves(id) || (step == DispatcherMoves && RoleOf(s.dpc, id) != Uninvolved)
  }

  lemma RunThreadApproaches(w: Worker, role: Role, listed: bool, pending: seq<Socket>)
    requires WorkerInv(w, role, listed) && InService(w) && !PastLoad(w.pc)
    ensures match RunThread(w, pending)
      case Some(Moves(w')) => Nearer(w, role, w', role)
      case Some(_) => false
      case None => role.Signalling? || role.Unlocking?
  {
  }

  lemma HandOffApproaches(d: DispatcherPc, w: Worker, listed: bool)
    requires HandsOff(d) && WorkerInv(w, RoleOf(d, d.id), listed) && InService(w) && !PastLoad(w.pc)
    ensures HandOff(d, w).Some?
    ensures var (w', d') := HandOff(d, w).value; Nearer(w, RoleOf(d, d.id), w', RoleOf(d', d.id))
  {
  }

  /** The worker now serves what it owed, or still owes it and is nearer to serving it. */
  predicate Nearer(w: Worker, role: Role, w': Worker, role': Role) {
    || w'.served == w.given
    || (w'.given == w.given && InService(w') && !PastLoad(w'.pc) && Delay(w', role') < Delay(w, role))
  }

  /** Delivery of a Resume cannot be held up: while a resumed worker owes service, one of its own steps, or
      the next step of the Resume running on it, can be taken. */
  lemma ResumedWorkerNotStuck(s: State, id: nat)
    requires Reachable(s) && !s.undefined && Owes(s, id)
    ensures Next(s, WorkerMoves(id)).Some? || (RoleOf(s.dpc, id) != Uninvolved && Next(s, DispatcherMoves).Some?)
  {
    ReachableInv(s);
    var w := s.workers[id];
    RunThreadApproaches(w, RoleOf(s.dpc, id), id in s.free, s.pending);
    if RoleOf(s.dpc, id) != Uninvolved { HandOffApproaches(s.dpc, w, id in s.free); }
  }

  /** Each such step brings the call of ReceiveData nearer, and no other step puts it off. */
  lemma ResumedWorkerAdvances(s: State, id: nat, step: Step)
    requires Inv(s) && Owes(s, id) && Next(s, step).Some?
    ensures var t := Next(s, step).value; id < |t.workers|
    ensures var t := Next(s, step).value; OnBehalfOf(s, step, id) ==>
      Nearer(s.workers[id], RoleOf(s.dpc, id), t.workers[id], RoleOf(t.dpc, id))
    ensures var t := Next(s, step).value; !OnBehalfOf(s, step, id) ==>
      Owes(t, id) && t.workers[id].given == s.workers[id].given && DelayOf(t, id) <= DelayOf(s, id)
  {
    var w := s.workers[id];
    assert WorkerInv(w, RoleOf(s.dpc, id), id in s.free);
    match step
    case WorkerMoves(mover) =>
      if mover == id { RunThreadApproaches(w, RoleOf(s.dpc, id), id in s.free, s.pending); }
      else { OthersUntouched(s, mover, id); }
    case DispatcherMoves =>
      if RoleOf(s.dpc, id) != Uninvolved { HandOffApproaches(s.dpc, w, id in s.free); }
      else { DispatcherElsewhere(s, id); }
    case _ =>
  }

  lemma OthersUntouched(s: State, mover: nat, id: nat)
    requires mover < |s.workers| && id < |s.workers| && mover != id && WorkerStep(s, mover).Some?
    ensures var t := WorkerStep(s, mover).value;
      |t.workers| == |s.workers| && t.workers[id] == s.workers[id] && t.dpc == s.dpc
  {
  }

  lemma DispatcherElsewhere(s: State, id: nat)
    requires Inv(s) && id < |s.workers| && RoleOf(s.dpc, id) == Uninvolved && DispatcherStep(s).Some?
    requires s.workers[id].state == RESUME
    ensures var t := DispatcherStep(s).value;
      id < |t.workers| && t.workers[id] == s.workers[id] && RoleOf(t.dpc, id) == Uninvolved
  {
    assert WorkerInv(s.workers[id], RoleOf(s.dpc, id), id in s.free);
    if HandsOff(s.dpc) { HandOffKeepsInv(s.dpc, s.workers[s.dpc.id], s.dpc.id in s.free); }
  }

  /** The steps of a schedule taken on behalf of a worker. */
  ghost function OwnSteps(s: State, steps: seq<Step>, id: nat): nat
    requires Exec(s, steps).Some?
    decreases |steps|
  {
    if steps == [] then 0
    else One(OnBehalfOf(s, steps[0], id)) + OwnSteps(Next(s, steps[0]).value, steps[1..], id)
  }

  /** After the first n steps, the worker has called ReceiveData on all that `given` lists. */
  ghost predicate ServedAfter(s: State, steps: seq<Step>, n: nat, id: nat, given: seq<Socket>) {
    && n <= |steps| && Exec(s, steps[..n]).Some?
    && id < |Exec(s, steps[..n]).value.workers|
    && Exec(s, steps[..n]).value.workers[id].served == given
  }

  /** Under every schedule, a resumed worker has called ReceiveData on the socket it owes by the time that
      eight steps were taken on its behalf. */
  lemma {:induction false} ResumedWorkerServes(s: State, id: nat, steps: seq<Step>)
    requires Reachable(s) && Owes(s, id) && Exec(s, steps).Some?
    requires OwnSteps(s, steps, id) >= 8
    ensures exists n :: ServedAfter(s, steps, n, id, s.workers[id].given)
  {
    ReachableInv(s);
    DelayAtMostEight(s, id);
    ServesBeforeDelayEnds(s, id, steps);
  }

  lemma DelayAtMostEight(s: State, id: nat)
    requires Inv(s) && Owes(s, id)
    ensures DelayOf(s, id) <= 8
  {
    assert WorkerInv(s.workers[id], RoleOf(s.dpc, id), id in s.free);
  }

  lemma ServedLater(s: State, steps: seq<Step>, n: nat, id: nat, given: seq<Socket>)
    requires steps != [] && Next(s, steps[0]).Some?
    requires ServedAfter(Next(s, steps[0]).value, steps[1..], n, id, given)
    ensures ServedAfter(s, steps, n + 1, id, given)
  {
    assert steps[..n + 1][1..] == steps[1..][..n];
  }

  lemma {:induction false} ServesBeforeDelayEnds(s: State, id: nat, steps: seq<Step>)
    requires Inv(s) && Owes(s, id) && Exec(s, steps).Some?
    requires OwnSteps(s, steps, id) >= DelayOf(s, id)
    ensures exists n :: ServedAfter(s, steps, n, id, s.workers[id].given)
    decreases |steps|
  {
    assert DelayOf(s, id) > 0;
    var t := Next(s, steps[0]).value;
    var given := s.workers[id].given;
    ResumedWorkerAdvances(s, id, steps[0]);
    if t.workers[id].served == given {
      assert ServedAfter(t, steps[1..], 0, id, given);
      ServedLater(s, steps, 0, id, given);
    } else {
      NextKeepsInv(s, steps[0]);
      ServesBeforeDelayEnds(t, id, steps[1..]);
      var n :| ServedAfter(t, steps[1..], n, id, given);
      ServedLater(s, steps, n, id, given);
    }
  }
}
