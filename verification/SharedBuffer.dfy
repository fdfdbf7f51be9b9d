/**
 Two or more workers draining one receiver at the same time. They share its buffer: a worker that reads while another
 is still sending may overwrite what that one sends. This module says exactly when it does, and what the senders get
 as long as nobody's data is overwritten.
 */
module SharedBuffer {
  import opened Common
  import opened Sockets
  import Schedules

  /** A worker in ReceiveData: about to read, with a datagram read and its next sender, or through. */
  datatype Drainer = Reading | Sending(d: Datagram, next: nat) | Ended

  /** `logs` has what each sender put on the wire, and `read` the datagrams read so far. */
  datatype Drains = Drains(
    queue: seq<Datagram>,
    buff: Datagram,
    drainers: seq<Drainer>,
    logs: seq<seq<Datagram>>,
    read: seq<Datagram>)

  datatype Step = Read(w: nat) | Send(w: nat) | Arrive(d: Datagram)

  predicate Shaped(s: Drains) {
    && |s.buff| == MAX_PACKET_SIZE
    && forall w :: 0 <= w < |s.drainers| && s.drainers[w].Sending? ==>
      0 < |s.drainers[w].d| <= MAX_PACKET_SIZE && s.drainers[w].next < |s.logs|
  }

  predicate Enabled(s: Drains, step: Step) {
    match step
    case Read(w) => w < |s.drainers| && s.drainers[w].Reading?
    case Send(w) => w < |s.drainers| && s.drainers[w].Sending?
    case Arrive(_) => true
  }

  predicate By(step: Step, w: nat) { !step.Arrive? && step.w == w }

  /** A worker whose next sender is this one, if there is one so far down the list. */
  function Turn(d: Datagram, next: nat, senders: nat): Drainer {
    if next < senders then Sending(d, next) else Reading
  }

  function Next(s: Drains, step: Step): Drains
    requires Shaped(s) && Enabled(s, step)
  {
    match step
    case Read(w) =>
      if s.queue == [] then s.(drainers := s.drainers[w := Ended])
      else if s.queue[0] == [] then s.(queue := s.queue[1..], drainers := s.drainers[w := Ended])
      else
        var d := Truncated(s.queue[0]);
        s.(queue := s.queue[1..], buff := d + s.buff[|d|..], read := s.read + [d],
           drainers := s.drainers[w := Turn(d, 0, |s.logs|)])
    case Send(w) =>
      var Sending(d, k) := s.drainers[w];
      s.(logs := s.logs[k := s.logs[k] + [s.buff[..|d|]]], drainers := s.drainers[w := Turn(d, k + 1, |s.logs|)])
    case Arrive(d) => s.(queue := s.queue + [d])
  }

  lemma StepKeepsShape(s: Drains, step: Step)
    requires Shaped(s) && Enabled(s, step)
    ensures Shaped(Next(s, step)) && |Next(s, step).drainers| == |s.drainers| && |Next(s, step).logs| == |s.logs|
  {
  }

  // ---------------------------------------------------------------- when data is overwritten

  /** What worker w has read and not sent to all is still in the buffer. */
  predicate Holds(s: Drains, w: nat)
    requires Shaped(s) && w < |s.drainers|
  {
    s.drainers[w].Sending? ==> s.buff[..|s.drainers[w].d|] == s.drainers[w].d
  }

  predicate Intact(s: Drains)
    requires Shaped(s)
  {
    forall w :: 0 <= w < |s.drainers| ==> Holds(s, w)
  }

  /** Two datagrams are the same as far as the shorter one goes. */
  predicate SameStart(a: Datagram, b: Datagram) {
    forall i :: 0 <= i < |a| && i < |b| ==> a[i] == b[i]
  }

  /** Sending and arriving overwrite nothing, and a read overwrites what worker v is sending exactly when the two
      datagrams differ within the length of the shorter. */
  lemma OverwritesExactlyWhen(s: Drains, step: Step, v: nat)
    requires Shaped(s) && Enabled(s, step) && v < |s.drainers| && !By(step, v) && Holds(s, v)
    ensures Shaped(Next(s, step)) && |Next(s, step).drainers| == |s.drainers|
    ensures !Holds(Next(s, step), v) <==>
      && step.Read? && s.queue != [] && s.queue[0] != []
      && s.drainers[v].Sending? && !SameStart(s.drainers[v].d, Truncated(s.queue[0]))
  {
    StepKeepsShape(s, step);
    if step.Read? && s.queue != [] && s.queue[0] != [] && s.drainers[v].Sending? {
      PrefixAfterWrite(s.buff, Truncated(s.queue[0]), s.drainers[v].d);
    }
  }

  lemma PrefixAfterWrite(buff: Datagram, d: Datagram, e: Datagram)
    requires |d| <= |buff| && |e| <= |buff| && buff[..|e|] == e
    ensures (d + buff[|d|..])[..|e|] == e <==> SameStart(e, d)
  {
    var after := d + buff[|d|..];
    assert forall i :: 0 <= i < |e| ==> buff[..|e|][i] == e[i] && after[..|e|][i] == if i < |d| then d[i] else e[i];
    if after[..|e|] == e {
      assert forall i :: 0 <= i < |e| ==> after[..|e|][i] == e[i];
    }
  }

  /** A worker's own read or send leaves what it has to send in the buffer. */
  lemma OwnStepHolds(s: Drains, step: Step)
    requires Shaped(s) && Enabled(s, step) && !step.Arrive? && Holds(s, step.w)
    ensures Shaped(Next(s, step)) && |Next(s, step).drainers| == |s.drainers| && Holds(Next(s, step), step.w)
  {
    StepKeepsShape(s, step);
  }

  // ---------------------------------------------------------------- what the senders get

  /** The datagrams that workers have read and not yet sent to sender k. */
  function Owed(drainers: seq<Drainer>, k: nat): multiset<Datagram> {
    if drainers == [] then multiset{}
    else Owed(drainers[..|drainers| - 1], k) + OwedBy(drainers[|drainers| - 1], k)
  }

  function OwedBy(drainer: Drainer, k: nat): multiset<Datagram> {
    if drainer.Sending? && drainer.next <= k then multiset{drainer.d} else multiset{}
  }

  lemma {:induction false} OwedUpdate(drainers: seq<Drainer>, w: nat, drainer: Drainer, k: nat)
    requires w < |drainers|
    ensures Owed(drainers[w := drainer], k) + OwedBy(drainers[w], k) == Owed(drainers, k) + OwedBy(drainer, k)
  {
    var n, updated := |drainers| - 1, drainers[w := drainer];
    OwedLast(drainers, k);
    OwedLast(updated, k);
    if w == n {
      assert updated[..n] == drainers[..n];
    } else {
      assert updated[..n] == drainers[..n][w := drainer];
      OwedUpdate(drainers[..n], w, drainer, k);
      AddBoth(Owed(updated[..n], k), OwedBy(drainers[w], k), Owed(drainers[..n], k), OwedBy(drainer, k),
              OwedBy(drainers[n], k));
    }
  }

  lemma AddBoth<T>(a: multiset<T>, b: multiset<T>, c: multiset<T>, d: multiset<T>, e: multiset<T>)
    requires a + b == c + d
    ensures (a + e) + b == (c + e) + d
  {
    assert (a + e) + b == (a + b) + e && (c + e) + d == (c + d) + e;
  }

  lemma OwedLast(drainers: seq<Drainer>, k: nat)
    requires drainers != []
    ensures var n := |drainers| - 1; Owed(drainers, k) == Owed(drainers[..n], k) + OwedBy(drainers[n], k)
  {
  }

  /** Sender k has sent what was read, each datagram once, but for what workers still owe it. */
  predicate Balanced(s: Drains, k: nat)
    requires k < |s.logs|
  {
    multiset(s.logs[k]) + Owed(s.drainers, k) == multiset(s.read)
  }

  /** A step of one worker keeps the balance if what is read goes to what is owed, and what was owed to the log. */
  lemma BalanceMoves(s: Drains, t: Drains, w: nat, k: nat)
    requires w < |s.drainers| && w < |t.drainers| && t.drainers == s.drainers[w := t.drainers[w]]
    requires k < |s.logs| && k < |t.logs| && Balanced(s, k)
    requires multiset(t.logs[k]) + OwedBy(t.drainers[w], k) + multiset(s.read)
      == multiset(s.logs[k]) + OwedBy(s.drainers[w], k) + multiset(t.read)
    ensures Balanced(t, k)
  {
    OwedUpdate(s.drainers, w, t.drainers[w], k);
    SumsAgree(multiset(s.logs[k]), multiset(t.logs[k]), Owed(s.drainers, k), Owed(t.drainers, k),
              OwedBy(s.drainers[w], k), OwedBy(t.drainers[w], k), multiset(s.read), multiset(t.read));
  }

  lemma SumsAgree<T>(log: multiset<T>, log': multiset<T>, owed: multiset<T>, owed': multiset<T>,
                     own: multiset<T>, own': multiset<T>, read: multiset<T>, read': multiset<T>)
    requires log' + own' + read == log + own + read' && owed' + own == owed + own' && log + owed == read
    ensures log' + owed' == read'
  {
    forall x
      ensures (log' + owed')[x] == read'[x]
    {
      assert (log' + own' + read)[x] == (log + own + read')[x] && (owed' + own)[x] == (owed + own')[x];
      assert (log + owed)[x] == read[x];
    }
  }

  lemma ReadBalances(s: Drains, w: nat, k: nat)
    requires Shaped(s) && Enabled(s, Read(w)) && k < |s.logs|
    ensures var t := Next(s, Read(w));
      && t.logs == s.logs && w < |t.drainers| && t.drainers == s.drainers[w := t.drainers[w]]
      && OwedBy(t.drainers[w], k) + multiset(s.read) == OwedBy(s.drainers[w], k) + multiset(t.read)
  {
  }

  /** What a worker owes a sender, it owes until the step that sends it there. */
  lemma SendBalances(s: Drains, w: nat, k: nat)
    requires Shaped(s) && Enabled(s, Send(w)) && Holds(s, w) && k < |s.logs|
    ensures var t := Next(s, Send(w));
      && t.read == s.read && w < |t.drainers| && t.drainers == s.drainers[w := t.drainers[w]] && k < |t.logs|
      && multiset(t.logs[k]) + OwedBy(t.drainers[w], k) == multiset(s.logs[k]) + OwedBy(s.drainers[w], k)
  {
  }

  lemma StepKeepsBalance(s: Drains, step: Step, k: nat)
    requires Shaped(s) && Enabled(s, step) && Intact(s) && k < |s.logs| && Balanced(s, k)
    ensures k < |Next(s, step).logs| && Balanced(Next(s, step), k)
  {
    if !step.Arrive? {
      if step.Read? { ReadBalances(s, step.w, k); } else { SendBalances(s, step.w, k); }
      BalanceMoves(s, Next(s, step), step.w, k);
    }
  }

  /** The state after a step, or None when the step cannot be taken. */
  function Try(s: Drains, step: Step): Option<Drains> {
    if Shaped(s) && Enabled(s, step) then Some(Next(s, step)) else None
  }

  predicate EnabledRun(s: Drains, steps: seq<Step>) {
    Schedules.Run(Try, s, steps).Some?
  }

  function Run(s: Drains, steps: seq<Step>): Drains
    requires EnabledRun(s, steps)
  {
    Schedules.Run(Try, s, steps).value
  }

  /** The step does not read a datagram that differs in its start from one that another worker is sending. */
  predicate Spares(s: Drains, step: Step) {
    step.Read? && s.queue != [] && s.queue[0] != [] ==>
      forall v :: 0 <= v < |s.drainers| && !By(step, v) && s.drainers[v].Sending? ==>
        SameStart(s.drainers[v].d, Truncated(s.queue[0]))
  }

  predicate NothingOverwritten(s: Drains, steps: seq<Step>)
    requires Shaped(s) && EnabledRun(s, steps)
    decreases |steps|
  {
    if steps == [] then true else Spares(s, steps[0]) && NothingOverwritten(Next(s, steps[0]), steps[1..])
  }

  /** At no time in the run is something in the buffer that a worker does not mean to send. */
  predicate IntactThroughout(s: Drains, steps: seq<Step>)
    requires Shaped(s) && EnabledRun(s, steps)
    decreases |steps|
  {
    Intact(s) && if steps == [] then true else IntactThroughout(Next(s, steps[0]), steps[1..])
  }

  lemma StepIntactExactlyWhen(s: Drains, step: Step)
    requires Shaped(s) && Enabled(s, step) && Intact(s)
    ensures Shaped(Next(s, step)) && (Intact(Next(s, step)) <==> Spares(s, step))
  {
    StepKeepsShape(s, step);
    if !step.Arrive? { OwnStepHolds(s, step); }
    forall v | 0 <= v < |s.drainers| && !By(step, v)
      ensures Holds(Next(s, step), v) <==>
        (step.Read? && s.queue != [] && s.queue[0] != [] && s.drainers[v].Sending? ==>
          SameStart(s.drainers[v].d, Truncated(s.queue[0])))
    {
      OverwritesExactlyWhen(s, step, v);
    }
  }

  lemma {:induction false} IntactExactlyWhen(s: Drains, steps: seq<Step>)
    requires Shaped(s) && Intact(s) && EnabledRun(s, steps)
    ensures IntactThroughout(s, steps) <==> NothingOverwritten(s, steps)
    decreases |steps|
  {
    if steps != [] {
      StepIntactExactlyWhen(s, steps[0]);
      if Spares(s, steps[0]) { IntactExactlyWhen(Next(s, steps[0]), steps[1..]); }
    }
  }

  lemma {:induction false} RunKeepsBalance(s: Drains, steps: seq<Step>, k: nat)
    requires Shaped(s) && Intact(s) && k < |s.logs| && Balanced(s, k)
    requires EnabledRun(s, steps) && NothingOverwritten(s, steps)
    ensures var t := Run(s, steps); k < |t.logs| && Balanced(t, k)
    decreases |steps|
  {
    if steps != [] {
      StepIntactExactlyWhen(s, steps[0]);
      StepKeepsBalance(s, steps[0], k);
      RunKeepsBalance(Next(s, steps[0]), steps[1..], k);
    }
  }

  /** So many workers about to drain a queue to so many senders; anything may be in the buffer. */
  function Begin(queue: seq<Datagram>, buff: Datagram, workers: nat, senders: nat): Drains {
    Drains(queue, buff, seq(workers, _ => Reading), seq(senders, _ => []), [])
  }

  lemma {:induction false} NothingOwed(workers: nat, k: nat)
    ensures Owed(seq(workers, _ => Reading), k) == multiset{}
  {
    if workers > 0 {
      assert seq(workers, _ => Reading)[..workers - 1] == seq(workers - 1, _ => Reading);
      NothingOwed(workers - 1, k);
    }
  }

  /** However the drains of a receiver interleave, and data arrives between, the buffer always holds what each
      worker is sending exactly when no datagram is read that differs, within the shorter length, from one that
      another worker is still sending. */
  lemma NothingGarbledExactlyWhen(queue: seq<Datagram>, buff: Datagram, workers: nat, senders: nat, steps: seq<Step>)
    requires |buff| == MAX_PACKET_SIZE && EnabledRun(Begin(queue, buff, workers, senders), steps)
    ensures IntactThroughout(Begin(queue, buff, workers, senders), steps) <==>
      NothingOverwritten(Begin(queue, buff, workers, senders), steps)
  {
    IntactExactlyWhen(Begin(queue, buff, workers, senders), steps);
  }

  /** However the drains of a receiver interleave, and data arrives between, as long as no read overwrites what
      another worker is sending, every sender sends each datagram read exactly once: at any time all but those that
      workers still owe it. */
  lemma OverlappingDrainsConserve(queue: seq<Datagram>, buff: Datagram, workers: nat, senders: nat,
                                  steps: seq<Step>, k: nat)
    requires k < senders && |buff| == MAX_PACKET_SIZE && EnabledRun(Begin(queue, buff, workers, senders), steps)
    requires NothingOverwritten(Begin(queue, buff, workers, senders), steps)
    ensures var t := Run(Begin(queue, buff, workers, senders), steps);
      k < |t.logs| && multiset(t.logs[k]) + Owed(t.drainers, k) == multiset(t.read)
  {
    NothingOwed(workers, k);
    RunKeepsBalance(Begin(queue, buff, workers, senders), steps, k);
  }

  // ---------------------------------------------------------------- one worker alone

  /** One worker has got so far with draining a queue: `done` was relayed to all, and it may be sending one more. */
  predicate AloneAt(s: Drains, queue: seq<Datagram>, done: seq<Datagram>) {
    && |s.drainers| == 1
    && match s.drainers[0]
       case Reading =>
         && Relayed(queue) == done + Relayed(s.queue) && Leftover(queue) == Leftover(s.queue)
         && forall k :: 0 <= k < |s.logs| ==> s.logs[k] == done
       case Sending(d, next) =>
         && Relayed(queue) == done + [d] + Relayed(s.queue) && Leftover(queue) == Leftover(s.queue)
         && forall k :: 0 <= k < |s.logs| ==> s.logs[k] == if k < next then done + [d] else done
       case Ended =>
         && Relayed(queue) == done && s.queue == Leftover(queue)
         && forall k :: 0 <= k < |s.logs| ==> s.logs[k] == done
  }

  lemma AloneReads(s: Drains, queue: seq<Datagram>, done: seq<Datagram>) returns (done': seq<Datagram>)
    requires Shaped(s) && AloneAt(s, queue, done) && Enabled(s, Read(0))
    ensures AloneAt(Next(s, Read(0)), queue, done')
  {
    done' := done;
    if s.queue != [] && s.queue[0] != [] {
      var d := Truncated(s.queue[0]);
      assert done + ([d] + Relayed(s.queue[1..])) == done + [d] + Relayed(s.queue[1..]);
      if |s.logs| == 0 { done' := done + [d]; }
    } else {
      assert done + [] == done;
    }
  }

  lemma AloneSends(s: Drains, queue: seq<Datagram>, done: seq<Datagram>) returns (done': seq<Datagram>)
    requires Shaped(s) && Intact(s) && AloneAt(s, queue, done) && Enabled(s, Send(0))
    ensures AloneAt(Next(s, Send(0)), queue, done')
  {
    var Sending(d, next) := s.drainers[0];
    assert Holds(s, 0);
    done' := if next + 1 < |s.logs| then done else done + [d];
  }

  lemma {:induction false} AloneRuns(s: Drains, queue: seq<Datagram>, done: seq<Datagram>, steps: seq<Step>)
    returns (done': seq<Datagram>)
    requires Shaped(s) && Intact(s) && AloneAt(s, queue, done) && EnabledRun(s, steps)
    requires forall i :: 0 <= i < |steps| ==> !steps[i].Arrive?
    ensures AloneAt(Run(s, steps), queue, done')
    decreases |steps|
  {
    done' := done;
    if steps != [] {
      assert steps[0] == if steps[0].Read? then Read(0) else Send(0);
      if steps[0].Read? { done' := AloneReads(s, queue, done); } else { done' := AloneSends(s, queue, done); }
      StepIntactExactlyWhen(s, steps[0]);
      done' := AloneRuns(Next(s, steps[0]), queue, done', steps[1..]);
    }
  }

  /** One worker alone drains as ReceiveData does: when it has ended, it has relayed to every sender the datagrams in
      front of the first one of length zero, and left those behind it. */
  lemma SoleDrainRelaysInOrder(queue: seq<Datagram>, buff: Datagram, senders: nat, steps: seq<Step>)
    requires |buff| == MAX_PACKET_SIZE && EnabledRun(Begin(queue, buff, 1, senders), steps)
    requires forall i :: 0 <= i < |steps| ==> !steps[i].Arrive?
    ensures var t := Run(Begin(queue, buff, 1, senders), steps);
      |t.drainers| == 1 && (t.drainers[0].Ended? ==>
        t.queue == Leftover(queue) && forall k :: 0 <= k < |t.logs| ==> t.logs[k] == Relayed(queue))
  {
    var s := Begin(queue, buff, 1, senders);
    assert [] + Relayed(queue) == Relayed(queue);
    var done := AloneRuns(s, queue, [], steps);
  }

  // ---------------------------------------------------------------- what can go wrong does

  /** Some interleaving leads from s to t. */
  ghost predicate Leads(s: Drains, t: Drains)
    requires Shaped(s)
  {
    exists steps: seq<Step> :: EnabledRun(s, steps) && Run(s, steps) == t
  }

  lemma LeadsNext(s: Drains, t: Drains, step: Step) returns (u: Drains)
    requires Shaped(s) && Leads(s, t) && Shaped(t) && Enabled(t, step)
    ensures u == Next(t, step) && Leads(s, u) && Shaped(u)
  {
    var steps: seq<Step> :| EnabledRun(s, steps) && Run(s, steps) == t;
    Schedules.RunThen(Try, s, steps, step);
    assert EnabledRun(s, steps + [step]);
    StepKeepsShape(t, step);
    u := Next(t, step);
  }

  /** Two workers and one sender: the second read comes before the first send, and the second datagram is sent twice. */
  lemma DatagramLost(buff: Datagram) returns (t: Drains)
    requires |buff| == MAX_PACKET_SIZE
    ensures Leads(Begin([[1], [2]], buff, 2, 1), t) && t.read == [[1], [2]] && t.logs == [[[2], [2]]]
  {
    var s := Begin([[1], [2]], buff, 2, 1);
    assert Run(s, []) == s;
    t := LeadsNext(s, s, Read(0));
    t := LeadsNext(s, t, Read(1));
    assert t.buff[..1] == [2];
    t := LeadsNext(s, t, Send(0));
    t := LeadsNext(s, t, Send(1));
    assert t.logs[0] == [[2], [2]];
  }
}
