/**
 The whole proxy at work: datagrams queue in the kernel, edge-triggered readiness is delivered in batches, the
 pool hands receivers to workers, and workers drain them. Receivers are numbered in the order of their registration.
 */
module Engine {
  import opened Common
  import Schedules
  import opened Sockets
  import Pool

  /** `kernel[r]` is what is queued for receiver r, `ready` the receivers marked ready in epoll, `batch` the rest of
      the batch that ProcessData is working on, and `done` the workers whose ReceiveData has returned.
      `arrived` and `read` are histories. */
  datatype Engine = Engine(
    pool: Pool.Pool<nat>,
    kernel: seq<seq<Datagram>>,
    ready: set<nat>,
    batch: seq<nat>,
    done: set<nat>,
    arrived: seq<seq<Datagram>>,
    read: seq<seq<Datagram>>)

  datatype Step =
    | Arrive(r: nat, d: Datagram)
    | AddWorkers(count: nat)
    | Deliver(events: seq<nat>)
    | DispatchNext
    | Read(id: nat)
    | Complete(id: nat)

  function Start(receivers: nat): Engine {
    var none := seq(receivers, _ => []);
    Engine(Pool.New(), none, {}, [], {}, none, none)
  }

  predicate Enabled(e: Engine, step: Step) {
    match step
    case Arrive(r, _) => r < |e.kernel|
    case AddWorkers(_) => e.pool.pending == []
    case Deliver(events) =>
      && e.batch == [] && events != [] && Pool.NoDuplicates(events)
      && forall i :: 0 <= i < |events| ==> events[i] in e.ready
    case DispatchNext => e.batch != []
    case Read(id) => id in e.pool.serving && id !in e.done && e.pool.serving[id] < |e.kernel|
    case Complete(id) => id in e.done && id in e.pool.serving
  }

  /** One recvfrom of a worker: a datagram is taken off the queue; nothing, or a datagram of length zero, ends the
      drain. */
  function ReadOne(e: Engine, id: nat): Engine
    requires Enabled(e, Read(id)) && |e.read| == |e.kernel|
  {
    var r := e.pool.serving[id];
    var q := e.kernel[r];
    var f := if q == [] then e else e.(kernel := e.kernel[r := q[1..]], read := e.read[r := e.read[r] + [q[0]]]);
    if q == [] || q[0] == [] then f.(done := e.done + {id}) else f
  }

  predicate Shaped(e: Engine) { |e.read| == |e.kernel| == |e.arrived| }

  function Next(e: Engine, step: Step): Engine
    requires Enabled(e, step) && Shaped(e)
  {
    match step
    case Arrive(r, d) =>
      e.(kernel := e.kernel[r := e.kernel[r] + [d]], arrived := e.arrived[r := e.arrived[r] + [d]],
         ready := e.ready + {r})
    case AddWorkers(count) => e.(pool := Pool.AddSome(e.pool, count))
    case Deliver(events) => e.(batch := events, ready := e.ready - Pool.Members(events))
    case DispatchNext => e.(pool := Pool.DispatchOne(e.pool, e.batch[0]), batch := e.batch[1..])
    case Read(id) => ReadOne(e, id)
    case Complete(id) => e.(pool := Pool.CompleteOne(e.pool, id), done := e.done - {id})
  }

  // ---------------------------------------------------------------- the invariants

  predicate Known(e: Engine) {
    && (forall r :: r in e.ready ==> r < |e.kernel|)
    && (forall r :: r in e.batch ==> r < |e.kernel|)
    && (forall r :: r in e.pool.pending ==> r < |e.kernel|)
    && (forall id :: id in e.pool.serving ==> e.pool.serving[id] < |e.kernel|)
    && (forall id :: id in e.done ==> id in e.pool.serving)
    && Pool.NoDuplicates(e.batch)
  }

  /** Nothing read is lost, repeated or reordered. */
  predicate InSequence(e: Engine) {
    Shaped(e) && forall r :: 0 <= r < |e.kernel| ==> e.read[r] + e.kernel[r] == e.arrived[r]
  }

  predicate Inv(e: Engine) {
    Pool.Inv(e.pool) && Known(e) && InSequence(e)
  }

  /** Some worker is draining the receiver, and has not yet seen an empty read. */
  predicate BeingDrained(e: Engine, r: nat) {
    exists id :: id in e.pool.serving && id !in e.done && e.pool.serving[id] == r
  }

  /** Somebody will look at the receiver's queue again. */
  predicate Attended(e: Engine, r: nat) {
    r in e.ready || r in e.batch || r in e.pool.pending || BeingDrained(e, r)
  }

  predicate NothingStranded(e: Engine) {
    forall r :: 0 <= r < |e.kernel| && e.kernel[r] != [] ==> Attended(e, r)
  }

  /** No datagram of length zero is queued. */
  predicate NoneEmpty(e: Engine) {
    forall r :: 0 <= r < |e.kernel| ==> [] !in e.kernel[r]
  }

  lemma StepKeepsPool(e: Engine, step: Step)
    requires Inv(e) && Enabled(e, step)
    ensures Pool.Inv(Next(e, step).pool)
  {
    match step
    case AddWorkers(count) => Pool.StepKeepsInv(e.pool, Pool.Add(count));
    case DispatchNext => Pool.StepKeepsInv(e.pool, Pool.Dispatch(e.batch[0]));
    case Complete(id) => Pool.StepKeepsInv(e.pool, Pool.Complete(id));
    case _ =>
  }

  lemma StepKeepsKnown(e: Engine, step: Step)
    requires Inv(e) && Enabled(e, step)
    ensures Known(Next(e, step))
  {
    match step
    case DispatchNext => DispatchKeepsKnown(e);
    case Complete(id) => CompleteKeepsKnown(e, id);
    case Deliver(events) =>
      assert forall r :: r in events ==> r in e.ready;
    case _ =>
  }

  lemma CompleteKeepsKnown(e: Engine, id: nat)
    requires Inv(e) && Enabled(e, Complete(id))
    ensures Known(Next(e, Complete(id)))
  {
    var f := Next(e, Complete(id));
    if e.pool.pending != [] {
      assert e.pool.pending[0] in e.pool.pending;
      assert forall r :: r in f.pool.pending ==> r in e.pool.pending;
    }
  }

  lemma DispatchKeepsKnown(e: Engine)
    requires Inv(e) && e.batch != []
    ensures Known(Next(e, DispatchNext))
  {
    Pool.TailMembers(e.batch);
    assert e.batch[0] in e.batch;
  }

  lemma StepKeepsSequence(e: Engine, step: Step)
    requires Inv(e) && Enabled(e, step)
    ensures InSequence(Next(e, step))
  {
    var f := Next(e, step);
    if step.Read? {
      var r := e.pool.serving[step.id];
      if e.kernel[r] != [] { assert e.kernel[r] == [e.kernel[r][0]] + e.kernel[r][1..]; }
    }
  }

  lemma StepKeepsInv(e: Engine, step: Step)
    requires Inv(e) && Enabled(e, step)
    ensures Inv(Next(e, step))
  {
    StepKeepsPool(e, step);
    StepKeepsKnown(e, step);
    StepKeepsSequence(e, step);
  }

  // ---------------------------------------------------------------- nothing is stranded

  lemma DispatchAttends(e: Engine, r: nat)
    requires Inv(e) && e.batch != [] && Attended(e, r)
    ensures Attended(Next(e, DispatchNext), r)
  {
    var f := Next(e, DispatchNext);
    var id := if e.pool.free != [] then e.pool.free[0] else e.pool.total;
    assert id !in e.pool.serving;
    assert e.batch == [e.batch[0]] + e.batch[1..];
    if r == e.batch[0] && (e.pool.free != [] || e.pool.total < MAX_WORKER_THREADS) {
      assert id in f.pool.serving && id !in f.done && f.pool.serving[id] == r;
    } else if BeingDrained(e, r) {
      var j :| j in e.pool.serving && j !in e.done && e.pool.serving[j] == r;
      assert j in f.pool.serving && j !in f.done && f.pool.serving[j] == r;
    }
  }

  lemma CompleteAttends(e: Engine, id: nat, r: nat)
    requires Inv(e) && Enabled(e, Complete(id)) && Attended(e, r)
    ensures Attended(Next(e, Complete(id)), r)
  {
    var f := Next(e, Complete(id));
    if e.pool.pending != [] && r == e.pool.pending[0] {
      assert id in f.pool.serving && id !in f.done && f.pool.serving[id] == r;
    } else if BeingDrained(e, r) {
      var j :| j in e.pool.serving && j !in e.done && e.pool.serving[j] == r;
      assert j in f.pool.serving && j !in f.done && f.pool.serving[j] == r;
    } else if e.pool.pending != [] {
      assert e.pool.pending == [e.pool.pending[0]] + e.pool.pending[1..];
    }
  }

  /** A read strands data exactly when it takes a datagram of length zero off a queue that holds more, and nobody
      else attends to that queue. */
  lemma ReadStrandsExactlyWhen(e: Engine, id: nat)
    requires Inv(e) && NothingStranded(e) && Enabled(e, Read(id))
    ensures var r := e.pool.serving[id]; var q := e.kernel[r];
      !NothingStranded(Next(e, Read(id))) <==> |q| > 1 && q[0] == [] && !Attended(e.(done := e.done + {id}), r)
  {
    var f := Next(e, Read(id));
    var r := e.pool.serving[id];
    forall s | 0 <= s < |e.kernel| && s != r && Attended(e, s)
      ensures Attended(f, s)
    {
      if BeingDrained(e, s) {
        var j :| j in e.pool.serving && j !in e.done && e.pool.serving[j] == s;
        assert j in f.pool.serving && j !in f.done && f.pool.serving[j] == s;
      }
    }
    if e.kernel[r] != [] && e.kernel[r][0] != [] {
      assert BeingDrained(f, r) by { assert id in f.pool.serving && id !in f.done; }
    } else {
      assert Attended(f, r) <==> Attended(e.(done := e.done + {id}), r);
    }
  }

  /** What ReadStrandsExactlyWhen says of a read. */
  predicate Strands(e: Engine, step: Step) {
    step.Read? && Enabled(e, step) &&
    var r := e.pool.serving[step.id]; var q := e.kernel[r];
      |q| > 1 && q[0] == [] && !Attended(e.(done := e.done + {step.id}), r)
  }

  /** Nothing but such a read strands data. */
  lemma StepStrandsExactlyWhen(e: Engine, step: Step)
    requires Inv(e) && NothingStranded(e) && Enabled(e, step)
    ensures !NothingStranded(Next(e, step)) <==> Strands(e, step)
  {
    var f := Next(e, step);
    match step
    case Read(id) => ReadStrandsExactlyWhen(e, id);
    case DispatchNext =>
      forall r | 0 <= r < |e.kernel| && e.kernel[r] != [] ensures Attended(f, r) { DispatchAttends(e, r); }
    case Complete(id) =>
      forall r | 0 <= r < |e.kernel| && e.kernel[r] != [] ensures Attended(f, r) { CompleteAttends(e, id, r); }
    case _ => OtherStepsAttend(e, step);
  }

  lemma OtherStepsAttend(e: Engine, step: Step)
    requires Inv(e) && NothingStranded(e) && Enabled(e, step) && (step.Arrive? || step.AddWorkers? || step.Deliver?)
    ensures NothingStranded(Next(e, step))
  {
    var f := Next(e, step);
    forall r | 0 <= r < |f.kernel| && f.kernel[r] != []
      ensures Attended(f, r)
    {
      if !(step.Arrive? && r == step.r) {
        assert Attended(e, r);
        assert BeingDrained(e, r) ==> BeingDrained(f, r);
      }
    }
  }

  lemma StepKeepsNoneEmpty(e: Engine, step: Step)
    requires Inv(e) && NoneEmpty(e) && Enabled(e, step) && (step.Arrive? ==> step.d != [])
    ensures NoneEmpty(Next(e, step)) && !Strands(e, step)
  {
    if step.Read? {
      var q := e.kernel[e.pool.serving[step.id]];
      if q != [] { assert q[0] in q; }
    }
  }

  // ---------------------------------------------------------------- runs

  /** The state after a step, or None when the step cannot be taken. */
  function Try(e: Engine, step: Step): Option<Engine> {
    if Shaped(e) && Enabled(e, step) then Some(Next(e, step)) else None
  }

  predicate EnabledRun(e: Engine, steps: seq<Step>) {
    Schedules.Run(Try, e, steps).Some?
  }

  function Run(e: Engine, steps: seq<Step>): Engine
    requires EnabledRun(e, steps)
  {
    Schedules.Run(Try, e, steps).value
  }

  predicate NoEmptyArrivals(steps: seq<Step>) {
    forall i :: 0 <= i < |steps| ==> (steps[i].Arrive? ==> steps[i].d != [])
  }

  predicate Good(e: Engine) { Inv(e) && NothingStranded(e) && NoneEmpty(e) }

  lemma {:induction false} RunKeepsGood(e: Engine, steps: seq<Step>)
    requires Good(e) && EnabledRun(e, steps) && NoEmptyArrivals(steps)
    ensures Good(Run(e, steps))
    decreases |steps|
  {
    if steps != [] {
      StepKeepsInv(e, steps[0]);
      StepStrandsExactlyWhen(e, steps[0]);
      StepKeepsNoneEmpty(e, steps[0]);
      RunKeepsGood(Next(e, steps[0]), steps[1..]);
    }
  }

  lemma StartIsGood(receivers: nat)
    ensures Good(Start(receivers))
  {
    Pool.NewInv<nat>();
  }

  /** In every run without datagrams of length zero, whoever has data queued is attended to, and what has been read
      of a receiver, followed by what is queued, is what arrived, in order. */
  lemma NoDataStranded(receivers: nat, steps: seq<Step>)
    requires EnabledRun(Start(receivers), steps) && NoEmptyArrivals(steps)
    ensures var e := Run(Start(receivers), steps);
      forall r :: 0 <= r < |e.kernel| && e.kernel[r] != [] ==> Attended(e, r)
    ensures InSequence(Run(Start(receivers), steps))
  {
    StartIsGood(receivers);
    RunKeepsGood(Start(receivers), steps);
  }

  /** At no time in the run is data stranded. */
  predicate NeverStranded(e: Engine, steps: seq<Step>)
    requires Shaped(e) && EnabledRun(e, steps)
    decreases |steps|
  {
    NothingStranded(e) && if steps == [] then true else NeverStranded(Next(e, steps[0]), steps[1..])
  }

  predicate NoStrandingRead(e: Engine, steps: seq<Step>)
    requires Shaped(e) && EnabledRun(e, steps)
    decreases |steps|
  {
    if steps == [] then true else !Strands(e, steps[0]) && NoStrandingRead(Next(e, steps[0]), steps[1..])
  }

  lemma {:induction false} NeverStrandedFrom(e: Engine, steps: seq<Step>)
    requires Inv(e) && NothingStranded(e) && EnabledRun(e, steps)
    ensures NeverStranded(e, steps) <==> NoStrandingRead(e, steps)
    decreases |steps|
  {
    if steps != [] {
      StepKeepsInv(e, steps[0]);
      StepStrandsExactlyWhen(e, steps[0]);
      if !Strands(e, steps[0]) { NeverStrandedFrom(Next(e, steps[0]), steps[1..]); }
    }
  }

  /** In every run, empty datagrams or not, data is stranded at no time exactly when no read of the run takes an empty
      datagram off a queue that holds more and that nobody else attends to. */
  lemma NeverStrandedExactlyWhen(receivers: nat, steps: seq<Step>)
    requires EnabledRun(Start(receivers), steps)
    ensures NeverStranded(Start(receivers), steps) <==> NoStrandingRead(Start(receivers), steps)
  {
    StartIsGood(receivers);
    NeverStrandedFrom(Start(receivers), steps);
  }

  // ---------------------------------------------------------------- one drain of a receiver at a time

  /** No two workers are in service on the same receiver, whose buffer they would share. */
  predicate Exclusive(p: Pool.Pool<nat>) {
    forall i, j :: i in p.serving && j in p.serving && p.serving[i] == p.serving[j] ==> i == j
  }

  predicate Served(p: Pool.Pool<nat>, r: nat) {
    exists id :: id in p.serving && p.serving[id] == r
  }

  /** A dispatch puts a second worker on a receiver exactly when one is on it already and another worker is to be
      had. */
  lemma DispatchOverlapsExactlyWhen(p: Pool.Pool<nat>, r: nat)
    requires Pool.Inv(p) && Exclusive(p)
    ensures !Exclusive(Pool.DispatchOne(p, r)) <==>
      Served(p, r) && (p.free != [] || p.total < MAX_WORKER_THREADS)
  {
    var q := Pool.DispatchOne(p, r);
    if p.free != [] || p.total < MAX_WORKER_THREADS {
      var id := if p.free != [] then p.free[0] else p.total;
      assert id !in p.serving && q.serving == p.serving[id := r];
      if Served(p, r) {
        var other :| other in p.serving && p.serving[other] == r;
        assert q.serving[other] == q.serving[id];
      }
    }
  }

  /** A completion does so exactly when the receiver at the front of the queue is served by another worker. */
  lemma CompletionOverlapsExactlyWhen(p: Pool.Pool<nat>, id: nat)
    requires Pool.Inv(p) && Exclusive(p) && id in p.serving
    ensures !Exclusive(Pool.CompleteOne(p, id)) <==>
      p.pending != [] && exists j :: j in p.serving && j != id && p.serving[j] == p.pending[0]
  {
    var q := Pool.CompleteOne(p, id);
    if p.pending != [] {
      if j :| j in p.serving && j != id && p.serving[j] == p.pending[0] {
        assert q.serving[j] == q.serving[id];
      }
    }
  }

  // ---------------------------------------------------------------- a drain, as a sequence of reads

  function Reads(id: nat, count: nat): seq<Step> {
    seq(count, _ => Read(id))
  }

  /** The reads of one worker, up to the one that ends its drain, leave the queue as ReceiveData does: one read for
      each datagram that is relayed, and one more. */
  lemma {:induction false} DrainIsReads(e: Engine, id: nat)
    requires Shaped(e) && Enabled(e, Read(id))
    ensures var r := e.pool.serving[id]; var steps := Reads(id, |Relayed(e.kernel[r])| + 1);
      && EnabledRun(e, steps)
      && Run(e, steps).kernel == e.kernel[r := Leftover(e.kernel[r])]
      && Run(e, steps).done == e.done + {id}
    decreases |e.kernel[e.pool.serving[id]]|
  {
    var r := e.pool.serving[id];
    var q := e.kernel[r];
    var f := Next(e, Read(id));
    var n := |Relayed(q)|;
    assert Reads(id, n + 1)[1..] == Reads(id, n);
    if q != [] && q[0] != [] {
      DrainIsReads(f, id);
    } else {
      assert Reads(id, 1)[1..] == [] && EnabledRun(f, []) && Run(f, []) == f;
    }
  }

  // ---------------------------------------------------------------- quiescence

  function Queued(kernel: seq<seq<Datagram>>): nat {
    if kernel == [] then 0 else Queued(kernel[..|kernel| - 1]) + |kernel[|kernel| - 1]|
  }

  lemma {:induction false} QueuedUpdate(kernel: seq<seq<Datagram>>, r: nat, q: seq<Datagram>)
    requires r < |kernel|
    ensures Queued(kernel[r := q]) == Queued(kernel) + |q| - |kernel[r]|
  {
    var n := |kernel| - 1;
    if r == n {
      assert kernel[r := q][..n] == kernel[..n];
    } else {
      assert kernel[r := q][..n] == kernel[..n][r := q];
      QueuedUpdate(kernel[..n], r, q);
    }
  }

  /** The steps that the proxy can still take, at most, if nothing more arrives: one for each datagram, and for each
      ready mark, event, waiting item and worker in service as many as it has stages ahead of it. */
  function Work(e: Engine): int {
    Queued(e.kernel) + 5 * |e.ready| + 4 * |e.batch| + 3 * |e.pool.pending| + 2 * |e.pool.serving| - |e.done|
  }

  /** A step that the proxy takes by itself. */
  predicate Internal(step: Step) { !step.Arrive? && !step.AddWorkers? }

  predicate AllInternal(steps: seq<Step>) {
    forall i :: 0 <= i < |steps| ==> Internal(steps[i])
  }

  lemma DeliverWorks(e: Engine, events: seq<nat>)
    requires Inv(e) && Enabled(e, Deliver(events))
    ensures Work(Next(e, Deliver(events))) < Work(e)
  {
    Pool.DistinctMembers(events);
    assert Pool.Members(events) <= e.ready;
    assert |e.ready| == |e.ready - Pool.Members(events)| + |Pool.Members(events)| by {
      assert e.ready == (e.ready - Pool.Members(events)) + Pool.Members(events);
    }
  }

  lemma DispatchWorks(e: Engine)
    requires Inv(e) && e.batch != []
    ensures Work(Next(e, DispatchNext)) < Work(e)
  {
    var id := if e.pool.free != [] then e.pool.free[0] else e.pool.total;
    assert id !in e.pool.serving;
    assert e.pool.serving[id := e.batch[0]].Keys == e.pool.serving.Keys + {id};
  }

  lemma ReadWorks(e: Engine, id: nat)
    requires Inv(e) && Enabled(e, Read(id))
    ensures Work(Next(e, Read(id))) < Work(e)
  {
    var r := e.pool.serving[id];
    if e.kernel[r] != [] { QueuedUpdate(e.kernel, r, e.kernel[r][1..]); }
  }

  lemma CompleteWorks(e: Engine, id: nat)
    requires Inv(e) && Enabled(e, Complete(id))
    ensures Work(Next(e, Complete(id))) < Work(e)
  {
    Pool.CompletionUnloads(e.pool, id);
  }

  lemma InternalStepWorks(e: Engine, step: Step)
    requires Inv(e) && Enabled(e, step) && Internal(step)
    ensures Work(Next(e, step)) < Work(e)
  {
    match step
    case Deliver(events) => DeliverWorks(e, events);
    case DispatchNext => DispatchWorks(e);
    case Read(id) => ReadWorks(e, id);
    case Complete(id) => CompleteWorks(e, id);
  }

  lemma WorkIsNotNegative(e: Engine)
    requires Inv(e)
    ensures Work(e) >= 0
  {
    Smaller(e.done, e.pool.serving.Keys);
  }

  lemma {:induction false} Smaller(a: set<nat>, b: set<nat>)
    requires a <= b
    ensures |a| <= |b|
  {
    if a != {} {
      var x :| x in a;
      Smaller(a - {x}, b - {x});
    }
  }

  lemma {:induction false} InternalRunWorks(e: Engine, steps: seq<Step>)
    requires Inv(e) && EnabledRun(e, steps) && AllInternal(steps)
    ensures |steps| + Work(Run(e, steps)) <= Work(e)
    decreases |steps|
  {
    if steps != [] {
      InternalStepWorks(e, steps[0]);
      StepKeepsInv(e, steps[0]);
      InternalRunWorks(Next(e, steps[0]), steps[1..]);
    }
  }

  /** Nothing marked, delivered, waiting or in service, and every worker free. */
  predicate Idle(e: Engine) {
    && e.ready == {} && e.batch == [] && e.pool.pending == [] && e.pool.serving == map[]
    && (forall id: nat :: id < e.pool.total ==> id in e.pool.free)
  }

  /** Nothing is queued, and all that arrived has been read. */
  predicate AllRead(e: Engine) {
    Shaped(e) && forall r :: 0 <= r < |e.kernel| ==> e.kernel[r] == [] && e.read[r] == e.arrived[r]
  }

  /** The proxy can do nothing by itself. */
  ghost predicate AtEnd(e: Engine) {
    forall step :: Internal(step) ==> !Enabled(e, step)
  }

  lemma EndsIdle(e: Engine)
    requires Inv(e) && AtEnd(e)
    ensures Idle(e)
  {
    assert !Enabled(e, DispatchNext);
    if r :| r in e.ready {
      assert Enabled(e, Deliver([r]));
    }
    if id :| id in e.pool.serving {
      assert Enabled(e, if id in e.done then Complete(id) else Read(id));
    }
    assert 0 in e.pool.free || e.pool.total == 0;
  }

  lemma EndIsIdleness(e: Engine)
    requires Inv(e)
    ensures AtEnd(e) <==> Idle(e)
  {
    if AtEnd(e) {
      EndsIdle(e);
    }
    if Idle(e) {
      forall step | Internal(step)
        ensures !Enabled(e, step)
      {
        if step.Deliver? && step.events != [] { assert step.events[0] !in e.ready; }
      }
    }
  }

  /** With nobody left to look at a queue, data in it is stranded. */
  lemma IdleLeavesNothingExactlyWhen(e: Engine)
    requires Inv(e) && Idle(e)
    ensures AllRead(e) <==> NothingStranded(e)
  {
    forall r | 0 <= r < |e.kernel|
      ensures !Attended(e, r)
    {
      assert r !in e.ready && r !in e.batch && r !in e.pool.pending && !BeingDrained(e, r);
    }
  }

  lemma {:induction false} RunKeepsInv(e: Engine, steps: seq<Step>)
    requires Inv(e) && EnabledRun(e, steps)
    ensures Inv(Run(e, steps))
    decreases |steps|
  {
    if steps != [] {
      StepKeepsInv(e, steps[0]);
      RunKeepsInv(Next(e, steps[0]), steps[1..]);
    }
  }

  /** Once arrivals stop, and whatever has arrived before, datagrams of length zero among it, every schedule comes to
      an end within a bound known from the state it starts in. It has ended exactly when nothing is marked,
      delivered, waiting or in service and every worker is free; and then all data has been read exactly when none was
      stranded on the way, as none is without datagrams of length zero. */
  lemma EventuallyQuiescent(receivers: nat, before: seq<Step>, steps: seq<Step>)
    requires EnabledRun(Start(receivers), before)
    requires var e := Run(Start(receivers), before); Shaped(e) && EnabledRun(e, steps) && AllInternal(steps)
    ensures |steps| <= Work(Run(Start(receivers), before))
    ensures var f := Run(Run(Start(receivers), before), steps);
      && (AtEnd(f) <==> Idle(f))
      && (AtEnd(f) ==> (AllRead(f) <==> NothingStranded(f)))
      && (NoEmptyArrivals(before) ==> NothingStranded(f))
  {
    StartIsGood(receivers);
    RunKeepsInv(Start(receivers), before);
    var e := Run(Start(receivers), before);
    var f := Run(e, steps);
    InternalRunWorks(e, steps);
    RunKeepsInv(e, steps);
    WorkIsNotNegative(f);
    EndIsIdleness(f);
    if AtEnd(f) { IdleLeavesNothingExactlyWhen(f); }
    if NoEmptyArrivals(before) {
      RunKeepsGood(Start(receivers), before);
      RunKeepsGood(e, steps);
    }
  }

  // ---------------------------------------------------------------- what can go wrong does

  /** Some run of a new proxy with so many receivers leads here. */
  ghost predicate Reachable(receivers: nat, e: Engine) {
    exists steps: seq<Step> :: EnabledRun(Start(receivers), steps) && Run(Start(receivers), steps) == e
  }

  lemma ReachNext(receivers: nat, e: Engine, step: Step) returns (f: Engine)
    requires Reachable(receivers, e) && Shaped(e) && Enabled(e, step)
    ensures Reachable(receivers, f) && f == Next(e, step)
  {
    var steps: seq<Step> :| EnabledRun(Start(receivers), steps) && Run(Start(receivers), steps) == e;
    Schedules.RunThen(Try, Start(receivers), steps, step);
    assert EnabledRun(Start(receivers), steps + [step]);
    f := Next(e, step);
  }

  /** A datagram arrives for the one receiver, and a worker is sent to it. */
  lemma FirstServed(d: Datagram) returns (e: Engine)
    ensures Reachable(1, e) && Shaped(e) && e.kernel == [[d]] && e.ready == {} && e.batch == [] && e.done == {}
    ensures e.pool == Pool.DispatchOne(Pool.New<nat>(), 0)
  {
    e := Start(1);
    assert Run(e, []) == e;
    e := ReachNext(1, e, Arrive(0, d));
    assert e.kernel[0] == [d];
    e := ReachNext(1, e, Deliver([0]));
    e := ReachNext(1, e, DispatchNext);
  }

  lemma FirstPool()
    ensures var p := Pool.DispatchOne(Pool.New<nat>(), 0);
      Pool.Inv(p) && p.serving == map[0 := 0] && p.free != [] && p.pending == []
  {
    Pool.NewInv<nat>();
    Pool.StepKeepsInv(Pool.New<nat>(), Pool.Dispatch(0));
  }

  /** A run in which a datagram of length zero ends a drain, and leaves the one behind it to nobody: both
      arrive before the worker reads, under one ready mark. */
  lemma StrandingIsReachable() returns (e: Engine)
    ensures Reachable(1, e) && !NothingStranded(e)
  {
    e := Start(1);
    assert Run(e, []) == e;
    e := ReachNext(1, e, Arrive(0, []));
    e := ReachNext(1, e, Arrive(0, [2]));
    assert e.kernel[0] == [[], [2]];
    e := ReachNext(1, e, Deliver([0]));
    e := ReachNext(1, e, DispatchNext);
    FirstPool();
    e := ReachNext(1, e, Read(0));
    assert !Attended(e, 0);
  }

  /** A run that puts two workers on one receiver: a second datagram arrives before the first worker has read. */
  lemma OverlapIsReachable() returns (e: Engine)
    ensures Reachable(1, e) && !Exclusive(e.pool)
  {
    e := FirstServed([1]);
    e := ReachNext(1, e, Arrive(0, [2]));
    e := ReachNext(1, e, Deliver([0]));
    FirstPool();
    assert 0 in e.pool.serving;
    DispatchOverlapsExactlyWhen(e.pool, 0);
    e := ReachNext(1, e, DispatchNext);
  }
}
