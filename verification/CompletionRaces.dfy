/**
 OnWorkComplete tests Count and then either pops or parks, without one lock over both.
 For every state in which the dispatcher waits for events, this module says exactly when the
 completions still to come may pop the empty queue, and exactly when they may leave work in the
 queue with every worker free. Both are reachable from a new dispatcher.
 */
module CompletionRaces {
  import opened Common
  import Schedules
  import opened WorkerThreads
  import opened Handshake

  // ---------------------------------------------------------------- schedules of the workers alone

  predicate WorkersOnly(steps: seq<Step>) {
    forall i :: 0 <= i < |steps| ==> steps[i].WorkerMoves? || steps[i].SpuriousWakeup?
  }

  /** The workers alone can take s to t. */
  ghost predicate Reaches(s: State, t: State) {
    exists steps: seq<Step> :: WorkersOnly(steps) && Exec(s, steps) == Some(t)
  }

  lemma ReachesSelf(s: State)
    ensures Reaches(s, s)
  {
    assert WorkersOnly([]) && Exec(s, []) == Some(s);
  }

  lemma ReachesThen(s: State, t: State, u: State)
    requires Reaches(s, t) && Reaches(t, u)
    ensures Reaches(s, u)
  {
    var a: seq<Step> :| WorkersOnly(a) && Exec(s, a) == Some(t);
    var b: seq<Step> :| WorkersOnly(b) && Exec(t, b) == Some(u);
    Schedules.RunAppend(Next, s, a, b);
    assert WorkersOnly(a + b);
  }

  lemma ReachesByMove(s: State, t: State, id: nat)
    requires Reaches(s, t) && Next(t, WorkerMoves(id)).Some?
    ensures Reaches(s, Next(t, WorkerMoves(id)).value)
  {
    var steps: seq<Step> :| WorkersOnly(steps) && Exec(s, steps) == Some(t);
    Schedules.RunThen(Next, s, steps, WorkerMoves(id));
    assert WorkersOnly(steps + [WorkerMoves(id)]);
  }

  // ---------------------------------------------------------------- the guards

  /** A worker that will look at the queue again: in service, and not past a test that found it empty. */
  predicate Active(w: Worker) { InService(w) && w.pc != WriteSleep }

  /** A worker past a test that found the queue not empty, with the pop still to come. */
  predicate Committed(w: Worker) { w.pc == WriteResume || w.pc == PopItem }

  /** Nobody is bound to pop an empty queue, and at most one worker can pop a queue that is not empty. */
  predicate PopsAreSafe(s: State) {
    if s.pending == [] then forall i :: 0 <= i < |s.workers| ==> !Committed(s.workers[i])
    else
      forall i, j :: 0 <= i < |s.workers| && 0 <= j < |s.workers| && Active(s.workers[i]) && Active(s.workers[j]) ==>
        i == j
  }

  predicate SomeoneActive(s: State) {
    exists i :: 0 <= i < |s.workers| && Active(s.workers[i])
  }

  /** The dispatcher waits for events, and the state is one that a run may be in. */
  predicate BetweenEvents(s: State) {
    Inv(s) && s.dpc == Idle && !s.undefined
  }

  /** Work in the queue, and every worker listed free: nobody will pop until another event comes. */
  predicate Stranded(s: State) {
    && BetweenEvents(s) && s.pending != []
    && forall i :: 0 <= i < |s.workers| ==> i in s.free && s.workers[i].state == SLEEP_WAIT
  }

  /** A step of one thread that touches only its own worker. */
  lemma MoveAlone(s: State, id: nat, w: Worker)
    requires BetweenEvents(s) && id < |s.workers| && RunThread(s.workers[id], s.pending) == Some(Moves(w))
    ensures Next(s, WorkerMoves(id)) == Some(Put(s, id, w))
    ensures BetweenEvents(Put(s, id, w)) && Reaches(s, Put(s, id, w))
  {
    NextKeepsInv(s, WorkerMoves(id));
    ReachesSelf(s);
    ReachesByMove(s, s, id);
  }

  /** The step that takes the head of the queue. */
  lemma PopAlone(s: State, id: nat) returns (t: State)
    requires BetweenEvents(s) && id < |s.workers| && s.workers[id].pc == PopItem && s.pending != []
    ensures BetweenEvents(t) && Reaches(s, t) && t.pending == s.pending[1..] && |t.workers| == |s.workers|
    ensures Active(t.workers[id]) && forall j :: 0 <= j < |s.workers| && j != id ==> t.workers[j] == s.workers[j]
  {
    assert WorkerInv(s.workers[id], Uninvolved, id in s.free);
    t := Next(s, WorkerMoves(id)).value;
    NextKeepsInv(s, WorkerMoves(id));
    ReachesSelf(s);
    ReachesByMove(s, s, id);
  }

  lemma EmptyPop(s: State, id: nat) returns (t: State)
    requires BetweenEvents(s) && id < |s.workers| && s.workers[id].pc == PopItem && s.pending == []
    ensures Reaches(s, t) && t.undefined
  {
    t := Next(s, WorkerMoves(id)).value;
    ReachesSelf(s);
    ReachesByMove(s, s, id);
  }

  // ---------------------------------------------------------------- safe states stay safe

  /** A worker's step makes no other worker active or committed, and itself committed only to a queue that holds
      work. */
  lemma RunThreadAndTheQueue(w: Worker, role: Role, listed: bool, pending: seq<Socket>)
    requires WorkerInv(w, role, listed) && RunThread(w, pending).Some?
    ensures var o := RunThread(w, pending).value;
      && (o.Undefined? <==> w.pc == PopItem && pending == [])
      && (o.Pops? ==> w.pc == PopItem && pending != [] && Active(w) && Active(o.w) && !Committed(o.w))
      && (o.Moves? || o.Returns? ==> (Active(o.w) ==> Active(w)))
      && (o.Moves? || o.Returns? ==> (Committed(o.w) ==> Committed(w) || pending != []))
      && (o.Moves? || o.Returns? ==> (Active(w) && !Active(o.w) ==> pending == []))
      && (Committed(w) ==> Active(w))
  {
  }

  /** What the previous lemma says, of an outcome alone. */
  predicate QueueRespecting(w: Worker, o: Outcome, pending: seq<Socket>) {
    && !o.Undefined?
    && (o.Pops? ==> pending != [] && Active(w) && Active(o.w) && !Committed(o.w))
    && (o.Moves? || o.Returns? ==> (Active(o.w) ==> Active(w)))
    && (o.Moves? || o.Returns? ==> (Committed(o.w) ==> Committed(w) || pending != []))
  }

  lemma SafeApply(s: State, id: nat, o: Outcome)
    requires id < |s.workers| && PopsAreSafe(s) && QueueRespecting(s.workers[id], o, s.pending)
    requires forall j :: 0 <= j < |s.workers| && Committed(s.workers[j]) ==> Active(s.workers[j])
    ensures PopsAreSafe(Apply(s, id, o)) && Apply(s, id, o).undefined == s.undefined
  {
  }

  lemma CommittedAreActive(s: State)
    requires WorkersInv(s)
    ensures forall j :: 0 <= j < |s.workers| && Committed(s.workers[j]) ==> Active(s.workers[j])
  {
    forall j | 0 <= j < |s.workers| && Committed(s.workers[j])
      ensures Active(s.workers[j])
    {
      assert WorkerInv(s.workers[j], RoleOf(s.dpc, j), j in s.free);
    }
  }

  lemma SafeStep(s: State, id: nat, outcome: Outcome)
    requires id < |s.workers| && WorkersInv(s) && PopsAreSafe(s)
    requires RunThread(s.workers[id], s.pending) == Some(outcome)
    ensures PopsAreSafe(Apply(s, id, outcome)) && Apply(s, id, outcome).undefined == s.undefined
  {
    CommittedAreActive(s);
    RunThreadAndTheQueue(s.workers[id], RoleOf(s.dpc, id), id in s.free, s.pending);
    SafeApply(s, id, outcome);
  }

  lemma SafeNext(s: State, step: Step)
    requires WorkersInv(s) && PopsAreSafe(s) && Next(s, step).Some? && (step.WorkerMoves? || step.SpuriousWakeup?)
    ensures var t := Next(s, step).value; PopsAreSafe(t) && t.undefined == s.undefined && t.dpc == s.dpc
  {
    if step.WorkerMoves? {
      SafeStep(s, step.id, RunThread(s.workers[step.id], s.pending).value);
    } else {
      CommittedAreActive(s);
      SafeApply(s, step.id, Moves(Wake(s.workers[step.id])));
    }
  }

  lemma {:induction false} SafeRun(s: State, steps: seq<Step>)
    requires BetweenEvents(s) && WorkersOnly(steps) && Exec(s, steps).Some? && PopsAreSafe(s)
    ensures !Exec(s, steps).value.undefined
    decreases |steps|
  {
    if steps != [] {
      SafeNext(s, steps[0]);
      NextKeepsInv(s, steps[0]);
      SafeRun(Next(s, steps[0]).value, steps[1..]);
    }
  }

  // ---------------------------------------------------------------- unsafe states can fail

  /** How many steps an active worker is away from the pop, while the queue holds work. */
  function StepsToPop(pc: WorkerPc): nat {
    match pc
    case PopItem => 0
    case WriteResume => 1
    case CheckCount => 2
    case Receiving => 3
    case _ => 3 + StepsToService(pc)
  }

  lemma RunThreadToPop(w: Worker, listed: bool, pending: seq<Socket>)
    requires WorkerInv(w, Uninvolved, listed) && Active(w) && w.pc != PopItem && pending != []
    ensures RunThread(w, pending).Some? && RunThread(w, pending).value.Moves?
    ensures var w' := RunThread(w, pending).value.w; Active(w') && StepsToPop(w'.pc) < StepsToPop(w.pc)
  {
  }

  /** An active worker can be brought to its pop while all other threads stand still. */
  lemma {:induction false} BringToPop(s: State, id: nat) returns (t: State)
    requires BetweenEvents(s) && id < |s.workers| && Active(s.workers[id]) && s.pending != []
    ensures BetweenEvents(t) && Reaches(s, t) && t.pending == s.pending
    ensures |t.workers| == |s.workers| && t.workers[id].pc == PopItem
    ensures forall j :: 0 <= j < |s.workers| && j != id ==> t.workers[j] == s.workers[j]
    decreases StepsToPop(s.workers[id].pc)
  {
    ReachesSelf(s);
    t := s;
    if s.workers[id].pc != PopItem {
      RunThreadToPop(s.workers[id], id in s.free, s.pending);
      var w := RunThread(s.workers[id], s.pending).value.w;
      MoveAlone(s, id, w);
      var u := Put(s, id, w);
      t := BringToPop(u, id);
      ReachesThen(s, u, t);
    }
  }

  /** Two workers at the pop: one empties the queue, and the other pops it empty. */
  lemma {:induction false} RaceToEmpty(s: State, a: nat, b: nat) returns (t: State)
    requires BetweenEvents(s) && s.pending != [] && a < |s.workers| && b < |s.workers| && a != b
    requires s.workers[a].pc == PopItem && s.workers[b].pc == PopItem
    ensures Reaches(s, t) && t.undefined
    decreases |s.pending|
  {
    var u := PopAlone(s, a);
    if u.pending == [] {
      t := EmptyPop(u, b);
      ReachesThen(s, u, t);
    } else {
      var v := BringToPop(u, a);
      t := RaceToEmpty(v, a, b);
      ReachesThen(s, u, v);
      ReachesThen(s, v, t);
    }
  }

  lemma CommittedPopsEmpty(s: State, id: nat) returns (t: State)
    requires BetweenEvents(s) && s.pending == [] && id < |s.workers| && Committed(s.workers[id])
    ensures Reaches(s, t) && t.undefined
  {
    if s.workers[id].pc == WriteResume {
      var w := s.workers[id].(state := RESUME, pc := PopItem);
      MoveAlone(s, id, w);
      t := EmptyPop(Put(s, id, w), id);
      ReachesThen(s, Put(s, id, w), t);
    } else {
      t := EmptyPop(s, id);
    }
  }

  /** Whatever the order of completions, no pop finds the queue empty, exactly when PopsAreSafe holds. */
  lemma PopsSafeExactlyWhen(s: State)
    requires BetweenEvents(s)
    ensures (forall t :: Reaches(s, t) ==> !t.undefined) <==> PopsAreSafe(s)
  {
    if PopsAreSafe(s) {
      forall t | Reaches(s, t)
        ensures !t.undefined
      {
        var steps: seq<Step> :| WorkersOnly(steps) && Exec(s, steps) == Some(t);
        SafeRun(s, steps);
      }
    } else if s.pending == [] {
      var id :| 0 <= id < |s.workers| && Committed(s.workers[id]);
      var t := CommittedPopsEmpty(s, id);
    } else {
      var a, b :|
        0 <= a < |s.workers| && 0 <= b < |s.workers| && Active(s.workers[a]) && Active(s.workers[b]) && a != b;
      var t := UnsafeFails(s, a, b);
    }
  }

  lemma UnsafeFails(s: State, a: nat, b: nat) returns (t: State)
    requires BetweenEvents(s) && s.pending != [] && a < |s.workers| && b < |s.workers| && a != b
    requires Active(s.workers[a]) && Active(s.workers[b])
    ensures Reaches(s, t) && t.undefined
  {
    var u := BringToPop(s, a);
    var v := BringToPop(u, b);
    t := RaceToEmpty(v, a, b);
    ReachesThen(s, u, v);
    ReachesThen(s, v, t);
  }

  // ---------------------------------------------------------------- work left in the queue

  lemma ActiveStep(s: State, step: Step)
    requires BetweenEvents(s) && WorkersOnly([step]) && Next(s, step).Some?
    requires s.pending == [] || SomeoneActive(s)
    ensures var t := Next(s, step).value; t.undefined || (BetweenEvents(t) && (t.pending == [] || SomeoneActive(t)))
  {
    NextKeepsInv(s, step);
    assert [step][0] == step;
    var id := step.id;
    var t := Next(s, step).value;
    if step.WorkerMoves? {
      RunThreadAndTheQueue(s.workers[id], RoleOf(s.dpc, id), id in s.free, s.pending);
    }
    if s.pending != [] {
      var i :| 0 <= i < |s.workers| && Active(s.workers[i]);
      if !t.undefined && t.pending != [] {
        assert i != id ==> t.workers[i] == s.workers[i];
        assert Active(t.workers[i]);
      }
    }
  }

  lemma {:induction false} ActiveRun(s: State, steps: seq<Step>)
    requires BetweenEvents(s) && WorkersOnly(steps) && Exec(s, steps).Some?
    requires s.pending == [] || SomeoneActive(s)
    ensures !Stranded(Exec(s, steps).value)
    decreases |steps|
  {
    if steps != [] {
      var t := Next(s, steps[0]).value;
      ActiveStep(s, steps[0]);
      if t.undefined {
        assert Exec(t, steps[1..]).Some? ==> steps[1..] == [];
      } else {
        ActiveRun(t, steps[1..]);
      }
    }
  }

  predicate ListedBelow(s: State, n: nat) {
    forall i :: 0 <= i < n ==> i in s.free
  }

  /** With nobody active, every worker up to n can be brought back to the free list. */
  lemma {:induction false} ParkAll(s: State, n: nat) returns (t: State)
    requires BetweenEvents(s) && n <= |s.workers| && !SomeoneActive(s)
    ensures ParkedFrom(s, t) && ListedBelow(t, n)
    decreases n
  {
    ReachesSelf(s);
    t := s;
    if n > 0 {
      var u := ParkAll(s, n - 1);
      t := ParkOne(u, n - 1);
      ReachesThen(s, u, t);
    }
  }

  lemma ParkOne(s: State, id: nat) returns (t: State)
    requires BetweenEvents(s) && id < |s.workers| && !SomeoneActive(s) && ListedBelow(s, id)
    ensures ParkedFrom(s, t) && ListedBelow(t, id + 1)
  {
    if s.workers[id].pc == WriteSleep {
      var w := s.workers[id].(state := SLEEP_WAIT, pc := ReturnFree);
      MoveAlone(s, id, w);
      var u := Put(s, id, w);
      NobodyBecomesActive(s, id, w);
      t := ReturnOne(u, id);
      ReachesThen(s, u, t);
    } else {
      t := ReturnOne(s, id);
    }
  }

  lemma NobodyBecomesActive(s: State, id: nat, w: Worker)
    requires id < |s.workers| && !SomeoneActive(s) && !Active(w)
    ensures !SomeoneActive(Put(s, id, w))
  {
  }

  ghost predicate ParkedFrom(s: State, t: State) {
    && BetweenEvents(t) && Reaches(s, t) && t.pending == s.pending && !SomeoneActive(t)
    && |t.workers| == |s.workers|
  }

  lemma ReturnOne(s: State, id: nat) returns (t: State)
    requires BetweenEvents(s) && id < |s.workers| && !SomeoneActive(s) && ListedBelow(s, id)
    requires s.workers[id].pc != WriteSleep
    ensures ParkedFrom(s, t) && ListedBelow(t, id + 1)
  {
    assert WorkerInv(s.workers[id], Uninvolved, id in s.free);
    ReachesSelf(s);
    t := s;
    if s.workers[id].pc == ReturnFree {
      NextKeepsInv(s, WorkerMoves(id));
      ReachesByMove(s, s, id);
      t := Next(s, WorkerMoves(id)).value;
      NobodyBecomesActive(s, id, t.workers[id]);
    }
  }

  /** Completions can leave work in the queue with every worker free exactly when the queue holds work and
      no worker is active. */
  lemma StrandingExactlyWhen(s: State)
    requires BetweenEvents(s)
    ensures (exists t :: Reaches(s, t) && Stranded(t)) <==> s.pending != [] && !SomeoneActive(s)
  {
    if s.pending != [] && !SomeoneActive(s) {
      var t := ParkAll(s, |s.workers|);
      assert forall i :: 0 <= i < |t.workers| ==> WorkerInv(t.workers[i], Uninvolved, i in t.free);
      assert Stranded(t);
    } else {
      forall t | Reaches(s, t)
        ensures !Stranded(t)
      {
        var steps: seq<Step> :| WorkersOnly(steps) && Exec(s, steps) == Some(t);
        ActiveRun(s, steps);
      }
    }
  }
}
