/**
 The dispatcher and its workers as objects, with the dispatch of one event and one completion as single steps:
 each method changes the pool as the functions of module Pool say.
 */
module WorkDispatcher {
  import opened Common
  import opened Sockets
  import Pool

  /** The queue of sockets that wait for a worker. Its lock makes each operation atomic, and is not shown. */
  class PendingWorkQueue<T> {
    var pendingList: seq<T>

    constructor ()
      ensures pendingList == []
    {
      pendingList := [];
    }

    method Push(item: T) returns (size: nat)
      modifies this
      ensures pendingList == old(pendingList) + [item] && size == |pendingList|
    {
      pendingList := pendingList + [item];
      size := |pendingList|;
    }

    method PushFront(item: T) returns (size: nat)
      modifies this
      ensures pendingList == [item] + old(pendingList) && size == |pendingList|
    {
      pendingList := [item] + pendingList;
      size := |pendingList|;
    }

    /** The front of an empty deque is undefined. */
    method Pop() returns (value: T)
      requires pendingList != []
      modifies this
      ensures [value] + pendingList == old(pendingList)
    {
      value := pendingList[0];
      pendingList := pendingList[1..];
    }

    method Count() returns (size: nat)
      ensures size == |pendingList|
    {
      size := |pendingList|;
    }
  }

  /** A worker's control slot, and how often its condition variable was signalled. */
  class Worker {
    const mySlotId: nat
    var state: WorkerState
    var receiverSocket: ReceiverSocket?
    var signals: nat

    constructor (slotId: nat)
      ensures mySlotId == slotId && state == SLEEP_WAIT && receiverSocket == null && signals == 0
    {
      mySlotId, state, receiverSocket, signals := slotId, SLEEP_WAIT, null, 0;
    }

    method Resume()
      modifies this`state, this`signals
      ensures state == RESUME && signals == old(signals) + 1
    {
      state := RESUME;
      signals := signals + 1;
    }

    method FinishAndDie()
      modifies this`state, this`signals
      ensures state == TERMINATE && signals == old(signals) + 1
    {
      state := TERMINATE;
      signals := signals + 1;
    }
  }

  datatype Slot = Slot(state: WorkerState, socket: ReceiverSocket?, signals: nat)

  ghost function SlotOf(w: Worker): Slot
    reads w
  {
    Slot(w.state, w.receiverSocket, w.signals)
  }

  /** Those that were taken have one signal more for each time, the others that there were are as they were, and new
      ones have one. */
  ghost predicate SlotsSignalled(now: map<Worker, Slot>, was: map<Worker, Slot>, taken: seq<Worker>) {
    forall w :: w in now ==>
      if w in was then now[w].signals == was[w].signals + multiset(taken)[w] && (w !in taken ==> now[w] == was[w])
      else now[w].signals == 1
  }

  /** The front of the free list has one signal more, new workers have one, and the others are as they were. */
  ghost predicate SlotsMoved(now: map<Worker, Slot>, next: map<Worker, Slot>, free: seq<Worker>) {
    forall w :: w in next ==>
      if free != [] && w == free[0] then w in now && next[w].signals == now[w].signals + 1
      else if w in now then next[w] == now[w] else next[w].signals == 1
  }

  lemma SignalledNext(now: map<Worker, Slot>, next: map<Worker, Slot>, was: map<Worker, Slot>, free: seq<Worker>,
                      i: nat)
    requires SlotsSignalled(now, was, free[..if i < |free| then i else |free|])
    requires SlotsMoved(now, next, free[if i < |free| then i else |free|..])
    requires forall w :: w in next && w !in now ==> w !in was
    requires forall k :: 0 <= k < |free| ==> free[k] in was
    ensures SlotsSignalled(next, was, free[..if i + 1 < |free| then i + 1 else |free|])
  {
    if i < |free| { assert free[..i + 1] == free[..i] + [free[i]]; }
  }

  ghost function Ids(ws: seq<Worker>): seq<nat> {
    seq(|ws|, i requires 0 <= i < |ws| => ws[i].mySlotId)
  }

  /** The socket in the slot of each worker in service. */
  ghost function SocketsInService(ws: seq<Worker>): map<nat, ReceiverSocket?>
    reads ws
  {
    map i: nat | i < |ws| && ws[i].state == RESUME :: ws[i].receiverSocket
  }

  predicate Listed(ws: seq<Worker>, listed: seq<Worker>) {
    forall k :: 0 <= k < |listed| ==> listed[k].mySlotId < |ws| && ws[listed[k].mySlotId] == listed[k]
  }

  class WorkDispatcher {
    const receivers: map<int, ReceiverSocket>
    const pendingItems: PendingWorkQueue<ReceiverSocket?>
    var freeWorkers: seq<Worker>
    var busyWorkers: seq<Worker>
    var workers: seq<Worker>
    var totalWorkerCount: nat
    ghost var started: seq<ReceiverSocket?>
    ghost var dispatched: seq<ReceiverSocket?>

    predicate Valid()
      reads this
    {
      && totalWorkerCount == |workers|
      && (forall i :: 0 <= i < |workers| ==> workers[i].mySlotId == i)
      && Listed(workers, freeWorkers) && Listed(workers, busyWorkers)
    }

    ghost function View(): Pool.Pool<ReceiverSocket?>
      reads this, workers, pendingItems
    {
      Pool.Pool(totalWorkerCount, Ids(freeWorkers), Ids(busyWorkers), pendingItems.pendingList,
                SocketsInService(workers), started, dispatched)
    }

    ghost function Slots(): map<Worker, Slot>
      reads this, workers
    {
      map w | w in workers :: SlotOf(w)
    }

    constructor (rcvrs: map<int, ReceiverSocket>)
      ensures Valid() && receivers == rcvrs && View() == Pool.New()
      ensures fresh(pendingItems) && forall w :: w in workers ==> fresh(w) && w.state == SLEEP_WAIT && w.signals == 0
    {
      receivers := rcvrs;
      pendingItems := new PendingWorkQueue();
      freeWorkers, busyWorkers, workers, totalWorkerCount := [], [], [], 0;
      started, dispatched := [], [];
      new;
      assert View() == Pool.Pool(0, [], [], [], map[], [], []);
      var _ := AddWorkers(INITIAL_WORKERS);
    }

    /** A worker in the next slot, asleep. */
    method CreateNewWorker() returns (newWorker: Worker)
      requires Valid()
      modifies this`workers, this`totalWorkerCount
      ensures Valid() && fresh(newWorker)
      ensures workers == old(workers) + [newWorker] && newWorker.state == SLEEP_WAIT && newWorker.signals == 0
      ensures newWorker.mySlotId == old(totalWorkerCount)
      ensures View() == old(View()).(total := old(View()).total + 1)
    {
      newWorker := new Worker(totalWorkerCount);
      workers := workers + [newWorker];
      totalWorkerCount := totalWorkerCount + 1;
    }

    method AddWorkers(count: nat) returns (added: nat)
      requires Valid()
      modifies this`workers, this`totalWorkerCount, this`freeWorkers
      ensures Valid() && added == count
      ensures old(workers) <= workers && forall i :: |old(workers)| <= i < |workers| ==>
        fresh(workers[i]) && workers[i].state == SLEEP_WAIT && workers[i].signals == 0
      ensures View() == Pool.AddSome(old(View()), count)
    {
      ghost var before := View();
      assert before.free + Pool.Range(before.total, 0) == before.free;
      for i := 0 to count
        invariant Valid()
        invariant old(workers) <= workers && forall j :: |old(workers)| <= j < |workers| ==>
          fresh(workers[j]) && workers[j].state == SLEEP_WAIT && workers[j].signals == 0
        invariant View() == Pool.AddSome(before, i)
      {
        var newWorker := CreateNewWorker();
        freeWorkers := freeWorkers + [newWorker];
        assert before.free + Pool.Range(before.total, i + 1) ==
          before.free + Pool.Range(before.total, i) + [before.total + i];
        assert Ids(freeWorkers) == before.free + Pool.Range(before.total, i + 1);
      }
      return count;
    }

    /** The front of the free list, which goes to the back of the busy list; null when nobody is free. */
    method GetFreeWorker() returns (worker: Worker?)
      requires Valid()
      modifies this`freeWorkers, this`busyWorkers
      ensures Valid()
      ensures worker == null <==> old(freeWorkers) == []
      ensures worker == null ==> View() == old(View()) && freeWorkers == []
      ensures worker != null ==> worker == old(freeWorkers)[0] && freeWorkers == old(freeWorkers)[1..]
      ensures worker != null ==> var was := old(View());
        View() == was.(free := was.free[1..], busy := was.busy + [worker.mySlotId])
    {
      if |freeWorkers| == 0 {
        return null;
      }
      worker := freeWorkers[0];
      assert Ids(freeWorkers[1..]) == Ids(freeWorkers)[1..];
      freeWorkers := freeWorkers[1..];
      busyWorkers := busyWorkers + [worker];
      assert Ids(busyWorkers) == old(Ids(busyWorkers)) + [worker.mySlotId];
    }

    method RecordNewBusyWorker(worker: Worker)
      requires Valid() && worker.mySlotId < |workers| && workers[worker.mySlotId] == worker
      modifies this`busyWorkers
      ensures Valid() && View() == old(View()).(busy := old(View()).busy + [worker.mySlotId])
    {
      busyWorkers := busyWorkers + [worker];
      assert Ids(busyWorkers) == old(Ids(busyWorkers)) + [worker.mySlotId];
    }

    method ReturnFreeWorker(worker: Worker) returns (size: nat)
      requires Valid() && worker.mySlotId < |workers| && workers[worker.mySlotId] == worker
      modifies this`freeWorkers
      ensures Valid() && size == |freeWorkers|
      ensures View() == old(View()).(free := old(View()).free + [worker.mySlotId])
    {
      freeWorkers := freeWorkers + [worker];
      assert Ids(freeWorkers) == old(Ids(freeWorkers)) + [worker.mySlotId];
      size := |freeWorkers|;
    }

    /** The socket is put in the worker's slot, and the worker told to resume. */
    method Assign(worker: Worker, socket: ReceiverSocket?)
      requires Valid() && worker.mySlotId < |workers| && workers[worker.mySlotId] == worker
      modifies worker, this`started
      ensures Valid() && View() == Pool.Start(old(View()), worker.mySlotId, socket)
      ensures worker.state == RESUME && worker.receiverSocket == socket && worker.signals == old(worker.signals) + 1
    {
      worker.receiverSocket := socket;
      worker.Resume();
      started := started + [socket];
      assert SocketsInService(workers) == old(SocketsInService(workers))[worker.mySlotId := socket];
    }

    /** A new worker for the socket; its thread is created once. */
    method Grow(socket: ReceiverSocket?)
      requires Valid()
      modifies this`workers, this`totalWorkerCount, this`busyWorkers, this`started
      ensures Valid() && |workers| == |old(workers)| + 1 && old(workers) <= workers && fresh(workers[|old(workers)|])
      ensures var worker := workers[|old(workers)|]; worker.state == RESUME && worker.signals == 1
      ensures View() == Pool.Start(old(View()), old(totalWorkerCount), socket).(
        total := old(View()).total + 1, busy := old(View()).busy + [old(totalWorkerCount)])
    {
      var worker := CreateNewWorker();
      Assign(worker, socket);
      RecordNewBusyWorker(worker);
    }

    /** One event of a batch. The front of the free list, if there is one, is resumed and signalled, and so is a worker
        that is created; all others are left alone. */
    method DispatchEvent(socket: ReceiverSocket?)
      requires Valid()
      modifies this, workers, pendingItems
      ensures Valid() && old(workers) <= workers
      ensures View() == Pool.DispatchOne(old(View()), socket)
      ensures freeWorkers == if old(freeWorkers) == [] then [] else old(freeWorkers)[1..]
      ensures old(freeWorkers) != [] ==> var worker := old(freeWorkers)[0];
        && worker.state == RESUME && worker.receiverSocket == socket && worker.signals == old(worker.signals) + 1
      ensures forall w :: w in old(workers) && (old(freeWorkers) == [] || w != old(freeWorkers)[0]) ==> unchanged(w)
      ensures forall i :: |old(workers)| <= i < |workers| ==>
        fresh(workers[i]) && workers[i].state == RESUME && workers[i].signals == 1
    {
      dispatched := dispatched + [socket];
      var worker := GetFreeWorker();
      if worker != null {
        Assign(worker, socket);
      } else if totalWorkerCount < MAX_WORKER_THREADS {
        Grow(socket);
      } else {
        var _ := pendingItems.Push(socket);
      }
    }

    /** The descriptors are all in the table. */
    predicate Knows(fds: seq<int>) {
      forall i :: 0 <= i < |fds| ==> fds[i] in receivers
    }

    /** The sockets of some descriptors. */
    ghost function Found(fds: seq<int>): seq<ReceiverSocket?>
      requires Knows(fds)
    {
      seq(|fds|, i requires 0 <= i < |fds| => receivers[fds[i]])
    }

    lemma FoundAppend(a: seq<int>, b: seq<int>)
      requires Knows(a) && Knows(b)
      ensures Knows(a + b) && Found(a + b) == Found(a) + Found(b)
    {
    }

    lemma RunNext(p: Pool.Pool<ReceiverSocket?>, evList: seq<int>, i: nat)
      requires i < |evList| && Knows(evList[..i + 1]) && Knows(evList[..i]) && evList[i] in receivers
      ensures Pool.Run(p, Dispatches(Found(evList[..i + 1]))) ==
        Pool.DispatchOne(Pool.Run(p, Dispatches(Found(evList[..i]))), receivers[evList[i]])
    {
      assert Found(evList[..i + 1]) == Found(evList[..i]) + [receivers[evList[i]]];
      DispatchesAppend(p, Found(evList[..i]), receivers[evList[i]]);
    }

    /** How many of some events go to workers that are free. */
    function Taken(count: nat, free: nat): nat { if count < free then count else free }

    /** After a few events: each has signalled the next worker of what was the free list, while there was one, or a
        worker that it created, and nobody else. `was` has the workers as they were. */
    ghost predicate Signalled(was: map<Worker, Slot>, free: seq<Worker>, taken: nat)
      requires taken <= |free|
      reads this, workers
    {
      && freeWorkers == free[taken..] && (forall k :: 0 <= k < |free| ==> free[k] in was)
      && SlotsSignalled(Slots(), was, free[..taken])
    }

    /** What one event does to the slots. */
    method DispatchSlots(socket: ReceiverSocket?)
      requires Valid()
      modifies this, workers, pendingItems
      ensures Valid() && View() == Pool.DispatchOne(old(View()), socket)
      ensures freeWorkers == if old(freeWorkers) == [] then [] else old(freeWorkers)[1..]
      ensures old(workers) <= workers && forall j :: |old(workers)| <= j < |workers| ==> fresh(workers[j])
      ensures old(freeWorkers) == [] || old(freeWorkers)[0] in old(Slots())
      ensures SlotsMoved(old(Slots()), Slots(), old(freeWorkers))
      ensures forall w :: w in Slots() - old(Slots()).Keys ==> fresh(w)
    {
      DispatchEvent(socket);
    }

    /** One event signals one more worker. */
    method SignalNext(socket: ReceiverSocket?, ghost was: map<Worker, Slot>, ghost free: seq<Worker>, ghost i: nat)
      requires Valid() && Signalled(was, free, Taken(i, |free|))
      modifies this, workers, pendingItems
      ensures Valid() && View() == Pool.DispatchOne(old(View()), socket)
      ensures old(workers) <= workers && forall j :: |old(workers)| <= j < |workers| ==> fresh(workers[j])
      ensures Signalled(was, free, Taken(i + 1, |free|))
    {
      ghost var now := Slots();
      DispatchSlots(socket);
      ghost var next := Slots();
      assert forall w :: w in next && w !in now ==> w !in was by {
        forall w | w in next && w !in now ensures w !in was { assert w in next - now.Keys; }
      }
      SignalledNext(now, next, was, free, i);
    }

    /** The i-th event of a batch. */
    method DispatchNext(evList: seq<int>, i: nat, ghost before: Pool.Pool<ReceiverSocket?>,
                        ghost was: map<Worker, Slot>, ghost free: seq<Worker>)
      requires Valid() && i < |evList| && Knows(evList[..i]) && evList[i] in receivers
      requires View() == Pool.Run(before, Dispatches(Found(evList[..i])))
      requires Signalled(was, free, Taken(i, |free|))
      modifies this, workers, pendingItems
      ensures Valid() && Knows(evList[..i + 1])
      ensures View() == Pool.Run(before, Dispatches(Found(evList[..i + 1])))
      ensures old(workers) <= workers && forall j :: |old(workers)| <= j < |workers| ==> fresh(workers[j])
      ensures Signalled(was, free, Taken(i + 1, |free|))
    {
      SignalNext(receivers[evList[i]], was, free, i);
      RunNext(before, evList, i);
    }

    /** Dispatches the events in order, up to the first whose descriptor is not in the table, which throws. Each event
        signals the next worker of the free list, while there is one, or a worker that it creates, and nobody else. */
    method ProcessData(evList: seq<int>) returns (r: Result<()>, ghost n: nat)
      requires Valid()
      modifies this, workers, pendingItems
      ensures Valid() && n <= |evList| && Knows(evList[..n])
      ensures if r.Success? then n == |evList| else n < |evList| && evList[n] !in receivers
      ensures View() == Pool.Run(old(View()), Dispatches(Found(evList[..n])))
      ensures old(workers) <= workers && forall i :: |old(workers)| <= i < |workers| ==> fresh(workers[i])
      ensures Signalled(old(Slots()), old(freeWorkers), Taken(n, |old(freeWorkers)|))
    {
      n := 0;
      var i := 0;
      ghost var before, was, free := View(), Slots(), freeWorkers;
      while i < |evList|
        invariant n == i <= |evList| && Valid()
        invariant Knows(evList[..i])
        invariant old(workers) <= workers && forall j :: |old(workers)| <= j < |workers| ==> fresh(workers[j])
        invariant View() == Pool.Run(before, Dispatches(Found(evList[..i])))
        invariant Signalled(was, free, Taken(i, |free|))
      {
        if evList[i] !in receivers {
          return Failure("receiver not found"), i;
        }
        DispatchNext(evList, i, before, was, free);
        i, n := i + 1, n + 1;
      }
      return Success(()), n;
    }

    /** A worker that has finished keeps going with the front of the queue, or is put to sleep and listed free. It is
        not signalled. */
    method OnWorkComplete(worker: Worker)
      requires Valid() && worker.mySlotId < |workers| && workers[worker.mySlotId] == worker && worker.state == RESUME
      modifies this`freeWorkers, this`started, worker, pendingItems
      ensures Valid() && View() == Pool.CompleteOne(old(View()), worker.mySlotId)
      ensures worker.state == (if old(pendingItems.pendingList) == [] then SLEEP_WAIT else RESUME)
      ensures worker.signals == old(worker.signals)
      ensures worker.receiverSocket ==
        if old(pendingItems.pendingList) == [] then old(worker.receiverSocket) else old(pendingItems.pendingList[0])
    {
      var waiting := pendingItems.Count();
      if waiting > 0 {
        KeepWorker(worker);
      } else {
        ParkWorker(worker);
      }
    }

    method KeepWorker(worker: Worker)
      requires Valid() && worker.mySlotId < |workers| && workers[worker.mySlotId] == worker && worker.state == RESUME
      requires pendingItems.pendingList != []
      modifies this`started, worker, pendingItems
      ensures Valid() && View() == Pool.CompleteOne(old(View()), worker.mySlotId)
      ensures worker.state == RESUME && worker.signals == old(worker.signals)
      ensures worker.receiverSocket == old(pendingItems.pendingList[0])
    {
      worker.state := RESUME;
      worker.receiverSocket := pendingItems.Pop();
      started := started + [worker.receiverSocket];
      assert SocketsInService(workers) == old(SocketsInService(workers))[worker.mySlotId := worker.receiverSocket];
    }

    method ParkWorker(worker: Worker)
      requires Valid() && worker.mySlotId < |workers| && workers[worker.mySlotId] == worker && worker.state == RESUME
      requires pendingItems.pendingList == []
      modifies this`freeWorkers, worker
      ensures Valid() && View() == Pool.CompleteOne(old(View()), worker.mySlotId)
      ensures worker.state == SLEEP_WAIT && worker.signals == old(worker.signals)
      ensures worker.receiverSocket == old(worker.receiverSocket)
    {
      worker.state := SLEEP_WAIT;
      assert SocketsInService(workers) == old(SocketsInService(workers)) - {worker.mySlotId};
      var _ := ReturnFreeWorker(worker);
    }

    /** Those of the named workers that are in service complete, one after the other. */
    method SomeComplete(ids: seq<nat>)
      requires Valid()
      modifies this`freeWorkers, this`started, workers, pendingItems
      ensures Valid() && View() == Pool.CompleteSome(old(View()), ids)
      ensures forall w :: w in workers ==> w.signals == old(w.signals)
    {
      ghost var before := View();
      assert ids[..0] == [];
      for k := 0 to |ids|
        invariant Valid() && View() == Pool.CompleteSome(before, ids[..k])
        invariant forall w :: w in workers ==> w.signals == old(w.signals)
      {
        assert ids[..k + 1][..k] == ids[..k];
        if ids[k] < |workers| && workers[ids[k]].state == RESUME {
          OnWorkComplete(workers[ids[k]]);
        }
      }
      assert ids[..|ids|] == ids;
    }

    method WakeUpAllThreads()
      requires Valid()
      modifies workers
      ensures Valid() && forall i :: 0 <= i < |workers| ==> workers[i].state == TERMINATE
      ensures forall i :: 0 <= i < |workers| ==> workers[i].signals == old(workers[i].signals) + 1
      ensures forall i :: 0 <= i < |workers| ==> workers[i].receiverSocket == old(workers[i].receiverSocket)
      ensures View() == old(View()).(serving := View().serving)
    {
      for i := 0 to |workers|
        invariant forall j :: 0 <= j < i ==> workers[j].state == TERMINATE
        invariant forall j :: 0 <= j < |workers| ==>
          workers[j].signals == old(workers[j].signals) + if j < i then 1 else 0
        invariant forall j :: 0 <= j < |workers| ==> workers[j].receiverSocket == old(workers[j].receiverSocket)
      {
        workers[i].FinishAndDie();
      }
    }

    /** The slots of the workers whose threads are joined, in the order of the joins. */
    method JoinThreads() returns (joined: seq<nat>)
      requires Valid()
      ensures joined == Pool.Range(0, totalWorkerCount)
    {
      joined := [];
      for i := 0 to |workers|
        invariant joined == Pool.Range(0, i)
      {
        joined := joined + [workers[i].mySlotId];
      }
    }
  }

  ghost function Dispatches<T>(items: seq<T>): seq<Pool.Op<T>> {
    seq(|items|, i requires 0 <= i < |items| => Pool.Dispatch(items[i]))
  }

  lemma {:induction false} DispatchesAppend<T>(p: Pool.Pool<T>, items: seq<T>, item: T)
    ensures Pool.Run(p, Dispatches(items + [item])) == Pool.DispatchOne(Pool.Run(p, Dispatches(items)), item)
    decreases |items|
  {
    if items == [] {
      assert Dispatches([item])[1..] == [];
    } else {
      assert (items + [item])[1..] == items[1..] + [item];
      assert Dispatches(items + [item])[1..] == Dispatches(items[1..] + [item]);
      assert Dispatches(items)[1..] == Dispatches(items[1..]);
      DispatchesAppend(Pool.DispatchOne(p, items[0]), items[1..], item);
    }
  }

  lemma {:induction false} DispatchesKeepFair<T>(p: Pool.Pool<T>, items: seq<T>)
    requires Pool.Fair(p)
    ensures Pool.Fair(Pool.Run(p, Dispatches(items)))
    decreases |items|
  {
    if items != [] {
      assert Dispatches(items)[1..] == Dispatches(items[1..]);
      Pool.DispatchKeepsFair(p, items[0]);
      DispatchesKeepFair(Pool.DispatchOne(p, items[0]), items[1..]);
    }
  }

  lemma {:induction false} DispatchesArrive<T>(items: seq<T>)
    ensures Pool.Arrivals(Dispatches(items)) == items
  {
    if items != [] {
      assert Dispatches(items)[1..] == Dispatches(items[1..]);
      DispatchesArrive(items[1..]);
    }
  }

  /** All items of a run of dispatches are on record, in order. */
  lemma DispatchesAreLogged<T>(p: Pool.Pool<T>, items: seq<T>)
    ensures Pool.Run(p, Dispatches(items)).dispatched == p.dispatched + items
  {
    Pool.RunLogsArrivals(p, Dispatches(items));
    DispatchesArrive(items);
  }
}
