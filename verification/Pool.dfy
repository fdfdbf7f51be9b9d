/**
 The worker pool with the dispatch of one event and one completion as single steps: what ProcessData,
 OnWorkComplete and AddWorkers do to the free list, the pending queue and the workers in service.
 */
module Pool {
  import opened Common

  /** Workers are named by their slot id. `serving` says which item each worker in service works on.
      `started` and `dispatched` are histories: the items handed to a worker, and the items that arrived. */
  datatype Pool<T> = Pool(
    total: nat,
    free: seq<nat>,
    busy: seq<nat>,
    pending: seq<T>,
    serving: map<nat, T>,
    started: seq<T>,
    dispatched: seq<T>)

  datatype Op<T> = Dispatch(item: T) | Complete(id: nat) | Add(count: nat)

  function Range(from: nat, count: nat): seq<nat> {
    seq(count, i requires 0 <= i => from + i)
  }

  function Start<T>(p: Pool<T>, id: nat, item: T): Pool<T> {
    p.(serving := p.serving[id := item], started := p.started + [item])
  }

  function DispatchOne<T>(p: Pool<T>, item: T): Pool<T> {
    var q := p.(dispatched := p.dispatched + [item]);
    if p.free != [] then
      Start(q, p.free[0], item).(free := p.free[1..], busy := p.busy + [p.free[0]])
    else if p.total < MAX_WORKER_THREADS then
      Start(q, p.total, item).(total := p.total + 1, busy := p.busy + [p.total])
    else
      q.(pending := p.pending + [item])
  }

  function CompleteOne<T>(p: Pool<T>, id: nat): Pool<T> {
    if p.pending != [] then
      Start(p, id, p.pending[0]).(pending := p.pending[1..])
    else
      p.(serving := p.serving - {id}, free := p.free + [id])
  }

  function AddSome<T>(p: Pool<T>, count: nat): Pool<T> {
    p.(total := p.total + count, free := p.free + Range(p.total, count))
  }

  function New<T>(): Pool<T> {
    AddSome(Pool(0, [], [], [], map[], [], []), INITIAL_WORKERS)
  }

  /** Only a worker in service completes; workers are added while nothing is pending. */
  predicate Enabled<T>(p: Pool<T>, op: Op<T>) {
    match op
    case Dispatch(_) => true
    case Complete(id) => id in p.serving
    case Add(_) => p.pending == []
  }

  function Step<T>(p: Pool<T>, op: Op<T>): Pool<T> {
    match op
    case Dispatch(item) => DispatchOne(p, item)
    case Complete(id) => CompleteOne(p, id)
    case Add(count) => AddSome(p, count)
  }

  predicate EnabledRun<T>(p: Pool<T>, ops: seq<Op<T>>)
    decreases |ops|
  {
    ops == [] || (Enabled(p, ops[0]) && EnabledRun(Step(p, ops[0]), ops[1..]))
  }

  function Run<T>(p: Pool<T>, ops: seq<Op<T>>): Pool<T>
    decreases |ops|
  {
    if ops == [] then p else Run(Step(p, ops[0]), ops[1..])
  }

  // ---------------------------------------------------------------- the invariant

  predicate NoDuplicates(ids: seq<nat>) {
    forall i, j :: 0 <= i < j < |ids| ==> ids[i] != ids[j]
  }

  /** Every worker is free or in service, never both, and listed free once. */
  predicate Partition<T>(p: Pool<T>) {
    && NoDuplicates(p.free)
    && (forall id :: id in p.free ==> id < p.total && id !in p.serving)
    && (forall id :: id in p.serving ==> id < p.total && id in p.busy)
    && (forall id: nat :: id < p.total ==> id in p.free || id in p.serving)
  }

  /** Work waits only when no worker is free and no further worker may be created. */
  predicate WorkConserving<T>(p: Pool<T>) {
    p.pending != [] ==> p.free == [] && p.total >= MAX_WORKER_THREADS
  }

  /** Items start in the order of their arrival, and what has not started waits in that order. */
  predicate InOrder<T(==)>(p: Pool<T>) {
    p.started + p.pending == p.dispatched
  }

  /** Order and conservation do not depend on who serves what. */
  predicate Fair<T(==)>(p: Pool<T>) { WorkConserving(p) && InOrder(p) }

  predicate Inv<T(==)>(p: Pool<T>) {
    Partition(p) && Fair(p)
  }

  lemma TailMembers(ids: seq<nat>)
    requires NoDuplicates(ids) && ids != []
    ensures NoDuplicates(ids[1..])
    ensures forall id :: id in ids[1..] <==> id in ids && id != ids[0]
  {
    assert ids == [ids[0]] + ids[1..];
  }

  lemma RangeMembers(from: nat, count: nat)
    ensures NoDuplicates(Range(from, count))
    ensures forall id: nat :: id in Range(from, count) <==> from <= id < from + count
  {
    forall id: nat | from <= id < from + count
      ensures id in Range(from, count)
    {
      assert Range(from, count)[id - from] == id;
    }
  }

  lemma DispatchKeepsPartition<T>(p: Pool<T>, item: T)
    requires Partition(p)
    ensures Partition(DispatchOne(p, item))
  {
    if p.free != [] { TailMembers(p.free); }
  }

  lemma CompleteKeepsPartition<T>(p: Pool<T>, id: nat)
    requires Partition(p) && id in p.serving
    ensures Partition(CompleteOne(p, id))
  {
  }

  lemma AddKeepsPartition<T>(p: Pool<T>, count: nat)
    requires Partition(p)
    ensures Partition(AddSome(p, count))
  {
    RangeMembers(p.total, count);
    var added := Range(p.total, count);
    assert forall i :: 0 <= i < |p.free| ==> p.free[i] in p.free;
    assert forall i :: 0 <= i < |added| ==> added[i] in added;
    assert forall id :: id in p.free + added <==> id in p.free || id in added;
  }

  lemma DispatchKeepsFair<T>(p: Pool<T>, item: T)
    requires Fair(p)
    ensures Fair(DispatchOne(p, item))
  {
  }

  lemma CompleteKeepsFair<T>(p: Pool<T>, id: nat)
    requires Fair(p)
    ensures Fair(CompleteOne(p, id))
  {
    if p.pending != [] { assert p.pending == [p.pending[0]] + p.pending[1..]; }
  }

  /** Those of the named workers that are in service complete, one after the other. */
  function CompleteSome<T>(p: Pool<T>, ids: seq<nat>): Pool<T> {
    if ids == [] then p
    else
      var n := |ids| - 1;
      var q := CompleteSome(p, ids[..n]);
      if ids[n] in q.serving then CompleteOne(q, ids[n]) else q
  }

  /** They are a run of completions. */
  lemma {:induction false} CompletingKeepsFair<T>(p: Pool<T>, ids: seq<nat>)
    requires Fair(p)
    ensures Fair(CompleteSome(p, ids)) && CompleteSome(p, ids).dispatched == p.dispatched
  {
    if ids != [] {
      CompletingKeepsFair(p, ids[..|ids| - 1]);
      CompleteKeepsFair(CompleteSome(p, ids[..|ids| - 1]), ids[|ids| - 1]);
    }
  }

  lemma StepKeepsInv<T>(p: Pool<T>, op: Op<T>)
    requires Inv(p) && Enabled(p, op)
    ensures Inv(Step(p, op))
  {
    match op
    case Dispatch(item) =>
      DispatchKeepsPartition(p, item);
      DispatchKeepsFair(p, item);
    case Complete(id) =>
      CompleteKeepsPartition(p, id);
      CompleteKeepsFair(p, id);
    case Add(count) => AddKeepsPartition(p, count);
  }

  lemma {:induction false} RunKeepsInv<T>(p: Pool<T>, ops: seq<Op<T>>)
    requires Inv(p) && EnabledRun(p, ops)
    ensures Inv(Run(p, ops))
    decreases |ops|
  {
    if ops != [] {
      StepKeepsInv(p, ops[0]);
      RunKeepsInv(Step(p, ops[0]), ops[1..]);
    }
  }

  lemma NewInv<T>()
    ensures Inv(New<T>())
  {
    AddKeepsPartition<T>(Pool(0, [], [], [], map[], [], []), INITIAL_WORKERS);
  }

  // ---------------------------------------------------------------- one queue, first in, first out

  /** The pool without its lists and the names of its workers: how many there are, how many are in use, and one
      queue in front of them. */
  datatype Queue<T> = Queue(workers: int, inUse: int, started: seq<T>, waiting: seq<T>)

  function QueueOf<T>(p: Pool<T>): Queue<T> { Queue(p.total, |p.serving|, p.started, p.pending) }

  function Max(a: int, b: int): int { if a < b then b else a }

  function Advance<T>(q: Queue<T>): Queue<T>
    requires q.waiting != []
  {
    q.(started := q.started + [q.waiting[0]], waiting := q.waiting[1..])
  }

  /** An item joins at the back, and the front advances at once while there is room; a completion advances the
      front, or leaves one worker less in use. */
  function QueueStep<T>(q: Queue<T>, op: Op<T>): Queue<T> {
    match op
    case Dispatch(item) =>
      var r := q.(waiting := q.waiting + [item]);
      if q.inUse < Max(q.workers, MAX_WORKER_THREADS) then
        Advance(r).(inUse := q.inUse + 1, workers := Max(q.workers, q.inUse + 1))
      else r
    case Complete(_) => if q.waiting != [] then Advance(q) else q.(inUse := q.inUse - 1)
    case Add(count) => q.(workers := q.workers + count)
  }

  function QueueRun<T>(q: Queue<T>, ops: seq<Op<T>>): Queue<T>
    decreases |ops|
  {
    if ops == [] then q else QueueRun(QueueStep(q, ops[0]), ops[1..])
  }

  function Members(ids: seq<nat>): set<nat> { set id | id in ids }

  lemma {:induction false} DistinctMembers(ids: seq<nat>)
    requires NoDuplicates(ids)
    ensures |Members(ids)| == |ids|
  {
    if ids != [] {
      assert Members(ids) == Members(ids[1..]) + {ids[0]};
      DistinctMembers(ids[1..]);
    }
  }

  function IdsBelow(n: nat): (ids: set<nat>)
    ensures |ids| == n
    ensures forall id: nat :: id in ids <==> id < n
  {
    if n == 0 then {} else IdsBelow(n - 1) + {n - 1}
  }

  /** Every worker is counted once. */
  lemma FreeOrInService<T>(p: Pool<T>)
    requires Partition(p)
    ensures |p.free| + |p.serving| == p.total
  {
    DistinctMembers(p.free);
    assert Members(p.free) + p.serving.Keys == IdsBelow(p.total);
    assert Members(p.free) !! p.serving.Keys;
  }

  lemma StepIsQueueStep<T>(p: Pool<T>, op: Op<T>)
    requires Inv(p) && Enabled(p, op)
    ensures QueueOf(Step(p, op)) == QueueStep(QueueOf(p), op)
  {
    FreeOrInService(p);
    StepKeepsInv(p, op);
    FreeOrInService(Step(p, op));
  }

  lemma {:induction false} RunIsQueueRun<T>(p: Pool<T>, ops: seq<Op<T>>)
    requires Inv(p) && EnabledRun(p, ops)
    ensures QueueOf(Run(p, ops)) == QueueRun(QueueOf(p), ops)
    decreases |ops|
  {
    if ops != [] {
      StepIsQueueStep(p, ops[0]);
      StepKeepsInv(p, ops[0]);
      RunIsQueueRun(Step(p, ops[0]), ops[1..]);
    }
  }

  /** The three ways of assigning an event, and the two lists, are a queue with room for
      MAX_WORKER_THREADS items in service, or as many as there are workers if there are more. Which worker takes an
      item, and which one completes, makes no difference to what starts when. */
  lemma PoolRefinesQueue<T>(ops: seq<Op<T>>)
    requires EnabledRun(New<T>(), ops)
    ensures QueueOf(Run(New(), ops)) == QueueRun(Queue(INITIAL_WORKERS, 0, [], []), ops)
  {
    NewInv<T>();
    RunIsQueueRun(New(), ops);
  }

  /** The items of the dispatches in a run. */
  function Arrivals<T>(ops: seq<Op<T>>): seq<T> {
    if ops == [] then []
    else (if ops[0].Dispatch? then [ops[0].item] else []) + Arrivals(ops[1..])
  }

  lemma {:induction false} RunLogsArrivals<T>(p: Pool<T>, ops: seq<Op<T>>)
    ensures Run(p, ops).dispatched == p.dispatched + Arrivals(ops)
    decreases |ops|
  {
    if ops != [] { RunLogsArrivals(Step(p, ops[0]), ops[1..]); }
  }

  /** Over any run of a new pool: what has started, followed by what waits, is what arrived, in order. */
  lemma FirstInFirstOut<T>(ops: seq<Op<T>>)
    requires EnabledRun(New<T>(), ops)
    ensures var p := Run(New(), ops); p.started + p.pending == Arrivals(ops)
  {
    NewInv<T>();
    RunKeepsInv(New(), ops);
    RunLogsArrivals(New(), ops);
  }

  // ---------------------------------------------------------------- nobody idles while work waits

  /** While work waits, every worker is in service, and there are at least MAX_WORKER_THREADS of them. */
  lemma NobodyIdles<T>(ops: seq<Op<T>>)
    requires EnabledRun(New<T>(), ops)
    ensures var p := Run(New(), ops);
      p.pending != [] ==> p.free == [] && |p.serving| == p.total && p.total >= MAX_WORKER_THREADS
  {
    NewInv<T>();
    RunKeepsInv(New(), ops);
    var p := Run(New(), ops);
    if p.pending != [] {
      assert p.serving.Keys == IdsBelow(p.total);
    }
  }

  /** The workers added in a run. */
  function Added<T>(ops: seq<Op<T>>): nat {
    if ops == [] then 0
    else (if ops[0].Add? then ops[0].count else 0) + Added(ops[1..])
  }

  lemma {:induction false} TotalBound<T>(p: Pool<T>, ops: seq<Op<T>>, bound: nat)
    requires p.total <= bound && bound >= MAX_WORKER_THREADS
    ensures p.total <= Run(p, ops).total <= bound + Added(ops)
    decreases |ops|
  {
    if ops != [] {
      TotalBound(Step(p, ops[0]), ops[1..], bound + (if ops[0].Add? then ops[0].count else 0));
    }
  }

  /** In every run: each worker is free or in service and not both, the free list has no duplicates, a worker in
      service is on the busy list, and the pool outgrows MAX_WORKER_THREADS only by the workers added. */
  lemma PoolBookkeeping<T>(ops: seq<Op<T>>)
    requires EnabledRun(New<T>(), ops)
    ensures var p := Run(New(), ops);
      Partition(p) && INITIAL_WORKERS <= p.total <= MAX_WORKER_THREADS + Added(ops)
  {
    NewInv<T>();
    RunKeepsInv(New(), ops);
    TotalBound(New<T>(), ops, MAX_WORKER_THREADS);
  }

  // ---------------------------------------------------------------- draining

  /** The items waiting and in service. */
  function Load<T>(p: Pool<T>): nat { |p.pending| + |p.serving| }

  predicate OnlyCompletions<T>(ops: seq<Op<T>>) {
    forall i :: 0 <= i < |ops| ==> ops[i].Complete?
  }

  lemma CompletionUnloads<T>(p: Pool<T>, id: nat)
    requires id in p.serving
    ensures Load(CompleteOne(p, id)) == Load(p) - 1
  {
    if p.pending != [] {
      assert p.serving[id := p.pending[0]].Keys == p.serving.Keys;
    } else {
      assert (p.serving - {id}).Keys == p.serving.Keys - {id};
    }
  }

  lemma {:induction false} CompletionsUnload<T>(p: Pool<T>, ops: seq<Op<T>>)
    requires Inv(p) && EnabledRun(p, ops) && OnlyCompletions(ops)
    ensures |ops| <= Load(p) && Load(Run(p, ops)) == Load(p) - |ops|
    decreases |ops|
  {
    if ops != [] {
      CompletionUnloads(p, ops[0].id);
      StepKeepsInv(p, ops[0]);
      CompletionsUnload(Step(p, ops[0]), ops[1..]);
    }
  }

  /** Completions in any order drain the pool in exactly as many steps as there are items waiting and in
      service: no order takes more, none is stuck before, and at the end nothing waits and all workers are free. */
  lemma DrainsInExactly<T>(p: Pool<T>, ops: seq<Op<T>>)
    requires Inv(p) && EnabledRun(p, ops) && OnlyCompletions(ops)
    ensures var q := Run(p, ops);
      && |ops| <= Load(p)
      && (|ops| == Load(p) <==> forall id: nat :: !Enabled(q, Complete(id)))
      && (|ops| == Load(p) <==>
           q.pending == [] && q.serving == map[] && forall id: nat :: id < q.total ==> id in q.free)
  {
    CompletionsUnload(p, ops);
    RunKeepsInv(p, ops);
    var q := Run(p, ops);
    assert q.total > 0 ==> 0 in q.free || 0 in q.serving;
    if q.serving != map[] {
      var id :| id in q.serving;
      assert Enabled(q, Complete(id));
    }
  }

  // ---------------------------------------------------------------- where the assumption on AddWorkers matters

  /** Adding workers keeps the invariant exactly while nothing is pending. */
  lemma AddSafeExactlyWhen<T>(p: Pool<T>, count: nat)
    requires Inv(p) && count > 0
    ensures Inv(AddSome(p, count)) <==> p.pending == []
  {
    if p.pending == [] {
      StepKeepsInv(p, Add(count));
    } else {
      assert AddSome(p, count).free[|p.free|] == p.total;
    }
  }

  lemma {:induction false} SameRotated<T>(items: seq<T>, item: T)
    ensures [item] + items == items + [item] <==> forall y :: y in items ==> y == item
  {
    if items != [] {
      var rest := items[1..];
      SameRotated(rest, item);
      assert items == [items[0]] + rest;
      assert forall y :: y in items <==> y == items[0] || y in rest;
      if items[0] == item {
        assert [item] + items == [item] + ([item] + rest) && items + [item] == [item] + (rest + [item]);
        assert ([item] + ([item] + rest))[1..] == [item] + rest && ([item] + (rest + [item]))[1..] == rest + [item];
      } else {
        assert items[0] in items;
        assert ([item] + items)[0] == item && (items + [item])[0] == items[0];
      }
    }
  }

  /** With workers added while items are pending, the next event overtakes them: the order survives a dispatch
      exactly when no worker is free, or everything that waits is the dispatched item itself. */
  lemma OvertakesExactlyWhen<T>(p: Pool<T>, item: T)
    requires InOrder(p) && (p.pending != [] ==> p.total >= MAX_WORKER_THREADS)
    ensures InOrder(DispatchOne(p, item)) <==> p.free == [] || forall y :: y in p.pending ==> y == item
  {
    SameRotated(p.pending, item);
    if p.free != [] {
      var q := DispatchOne(p, item);
      assert q.started + q.pending == p.started + ([item] + p.pending);
      assert q.dispatched == p.started + (p.pending + [item]);
      assert (p.started + ([item] + p.pending))[|p.started|..] == [item] + p.pending;
      assert (p.started + (p.pending + [item]))[|p.started|..] == p.pending + [item];
    }
  }
}
