/**
 What draining guarantees: what is relayed and what is left, agreement between the senders of a receiver,
 and the arithmetic between the receiver's counters and theirs.
 */
module FanOut {
  import opened Common
  import opened StatsCollector
  import opened Sockets

  // ---------------------------------------------------------------- what is relayed, and what is left

  /** A drain relays the datagrams in front of the first one of length zero, in order and cut to the size of the
      buffer, and takes that one off the queue too. */
  lemma {:induction false} RelaysInOrder(q: seq<Datagram>)
    ensures var n := |Relayed(q)|;
      && n <= |q|
      && (forall i :: 0 <= i < n ==>
           && q[i] != [] && Relayed(q)[i] <= q[i]
           && |Relayed(q)[i]| == if |q[i]| < MAX_PACKET_SIZE then |q[i]| else MAX_PACKET_SIZE)
      && (n < |q| ==> q[n] == [])
      && Leftover(q) == if n < |q| then q[n + 1..] else []
  {
    if q != [] && q[0] != [] {
      RelaysInOrder(q[1..]);
      var n := |Relayed(q)|;
      if n < |q| { assert q[1..][n..] == q[n + 1..]; }
    }
  }

  /** The results of the reads: the bytes of each datagram that fit the buffer, and at last 0 for one of length zero, or
      -1 as a size_t when nothing is left. */
  lemma {:induction false} ReadsInOrder(q: seq<Datagram>)
    ensures var n := |Relayed(q)|;
      && |ReadSizes(q)| == n + 1
      && (forall i :: 0 <= i < n ==> ReadSizes(q)[i] == |Relayed(q)[i]|)
      && ReadSizes(q)[n] == if [] in q then 0 else 0x1_0000_0000_0000_0000 - 1
  {
    if q != [] && q[0] != [] { ReadsInOrder(q[1..]); }
  }

  /** A drain empties the queue exactly when no datagram but the last has length zero. */
  lemma {:induction false} DrainEmptiesExactlyWhen(q: seq<Datagram>)
    ensures Leftover(q) == [] <==> forall i :: 0 <= i < |q| - 1 ==> q[i] != []
  {
    RelaysInOrder(q);
  }

  /** A drain relays everything, unchanged, exactly when every datagram fits the buffer and none is empty. */
  lemma {:induction false} RelaysVerbatimExactlyWhen(q: seq<Datagram>)
    ensures Relayed(q) == q <==> forall i :: 0 <= i < |q| ==> 0 < |q[i]| <= MAX_PACKET_SIZE
  {
    RelaysInOrder(q);
    if forall i :: 0 <= i < |q| ==> 0 < |q[i]| <= MAX_PACKET_SIZE {
      assert forall i :: 0 <= i < |q| ==> Relayed(q)[i] == q[i];
    }
    if Relayed(q) == q {
      assert forall i :: 0 <= i < |q| ==> |Relayed(q)[i]| == |q[i]|;
    }
  }

  // ---------------------------------------------------------------- agreement of the senders

  /** All senders have put the same datagrams on the wire. */
  predicate InStep(views: seq<SenderView>, log: seq<Datagram>) {
    forall i :: 0 <= i < |views| ==> views[i].sent == log
  }

  /** Everyone is in step but for the latest datagram, which the senders up to some place in the list already have. */
  predicate InStepButOne(views: seq<SenderView>) {
    forall i, j :: 0 <= i < j < |views| ==>
      views[j].sent <= views[i].sent && |views[i].sent| <= |views[j].sent| + 1
  }

  function AllRelayed(drains: seq<seq<Datagram>>): seq<Datagram> {
    if drains == [] then [] else Relayed(drains[0]) + AllRelayed(drains[1..])
  }

  /** What each of several drains finds queued, if so much is left at first and so much arrives before each. */
  function Finds(left: seq<Datagram>, arrivals: seq<seq<Datagram>>): seq<seq<Datagram>>
    decreases |arrivals|
  {
    if arrivals == [] then []
    else [left + arrivals[0]] + Finds(Leftover(left + arrivals[0]), arrivals[1..])
  }

  lemma RelayingKeepsStep(before: seq<SenderView>, log: seq<Datagram>, ds: seq<Datagram>)
    requires InStep(before, log)
    ensures InStep(RelayedToAll(before, ds), log + ds)
  {
  }

  /** In the middle of a fan-out, and after one that a sender has cut short, two logs differ by one datagram at
      the most, and the senders listed earlier are the ones ahead. */
  lemma SendersDifferByOne(before: seq<SenderView>, log: seq<Datagram>, d: Datagram, at: nat)
    requires InStep(before, log)
    ensures InStepButOne(SentTo(before, [d], at)) && InStepButOne(FannedOut(before, [d], at))
    ensures InStep(FannedOut(before, [d], at), log) <==> at == 0 || before == []
  {
    if at > 0 && before != [] {
      assert |FannedOut(before, [d], at)[0].sent| == |log| + 1;
    }
  }

  /** The same of a whole drain that a sender has cut short. */
  lemma CutShortDiffersByOne(q: seq<Datagram>, inbox: seq<Datagram>, n: nat, at: nat, log: seq<Datagram>,
                             before: seq<SenderView>, views: seq<SenderView>, counted: Counters, counters: Counters)
    requires InStep(before, log) && Interrupted(q, inbox, n, at, before, views, counted, counters)
    ensures InStepButOne(views)
    ensures forall i :: 0 <= i < |views| ==> views[i].sent == log + Relayed(q)[..if i < at then n + 1 else n]
  {
    var middle := RelayedToAll(before, Relayed(q)[..n]);
    assert InStep(middle, log + Relayed(q)[..n]);
    SendersDifferByOne(middle, log + Relayed(q)[..n], Relayed(q)[n], at);
    assert Relayed(q)[..n + 1] == Relayed(q)[..n] + [Relayed(q)[n]];
  }

  /** Data arrives, and a worker drains the receiver. */
  method DrainOnce(receiver: ReceiverSocket, arrived: seq<Datagram>, ghost log: seq<Datagram>) returns (r: Result<()>)
    requires receiver.Valid() && InStep(receiver.Views(), log)
    modifies receiver, receiver.buff, receiver.stats
    modifies set s | s in receiver.senders, set s | s in receiver.senders :: s.stats
    ensures r.Success? ==> receiver.inbox == Leftover(old(receiver.inbox) + arrived)
    ensures r.Success? ==> InStep(receiver.Views(), log + Relayed(old(receiver.inbox) + arrived))
    ensures r.Failure? ==> InStepButOne(receiver.Views())
  {
    receiver.inbox := receiver.inbox + arrived;
    ghost var q, before, counted := receiver.inbox, receiver.Views(), receiver.stats.View();
    ghost var n, at;
    r, n, at := receiver.ReceiveData();
    if r.Failure? {
      CutShortDiffersByOne(q, receiver.inbox, n, at, log, before, receiver.Views(), counted, receiver.stats.View());
    } else {
      RelayingKeepsStep(before, log, Relayed(q));
    }
  }

  /** A worker drains one receiver again and again, data arriving before each time. If no send fails, all senders have
      the same log at the end, what the drains relayed, in order; and if one does, no two are more than one datagram
      apart. */
  method DrainInTurn(receiver: ReceiverSocket, arrivals: seq<seq<Datagram>>, ghost log: seq<Datagram>)
    returns (r: Result<()>)
    requires receiver.Valid() && InStep(receiver.Views(), log)
    modifies receiver, receiver.buff, receiver.stats
    modifies set s | s in receiver.senders, set s | s in receiver.senders :: s.stats
    ensures r.Success? ==> InStep(receiver.Views(), log + AllRelayed(Finds(old(receiver.inbox), arrivals)))
    ensures InStepButOne(receiver.Views())
  {
    ghost var all, sofar := AllRelayed(Finds(receiver.inbox, arrivals)), log;
    assert arrivals[0..] == arrivals;
    for i := 0 to |arrivals|
      invariant InStep(receiver.Views(), sofar)
      invariant log + all == sofar + AllRelayed(Finds(receiver.inbox, arrivals[i..]))
    {
      FindsNext(receiver.inbox, arrivals, i, sofar);
      ghost var q := receiver.inbox + arrivals[i];
      r := DrainOnce(receiver, arrivals[i], sofar);
      if r.Failure? {
        return;
      }
      sofar := sofar + Relayed(q);
    }
    return Success(());
  }

  lemma FindsNext(left: seq<Datagram>, arrivals: seq<seq<Datagram>>, i: nat, sofar: seq<Datagram>)
    requires i < |arrivals|
    ensures var q := left + arrivals[i];
      sofar + AllRelayed(Finds(left, arrivals[i..])) ==
      sofar + Relayed(q) + AllRelayed(Finds(Leftover(q), arrivals[i + 1..]))
  {
    assert arrivals[i..][1..] == arrivals[i + 1..];
  }

  // ---------------------------------------------------------------- bytes in, bytes out

  /** A receiver's counters, those of one of its senders, the number of the receiver's failed reads, and the bytes that
      were read and that the sender has still to send. */
  datatype Ledger = Ledger(receiver: Counters, sender: Counters, failedReads: nat, owed: nat)

  /** A single report of the receiver or of the sender, or a collection of statistics. */
  datatype Entry =
    | Received(size: nat)
    | ReadEmpty
    | ReadFailed
    | Sent(size: nat)
    | CollectReceiver
    | CollectSender

  /** A sender sends what was read and no more. */
  function Posted(l: Ledger, e: Entry): Ledger {
    match e
    case Received(size) => l.(receiver := Reported(l.receiver, size), owed := l.owed + size)
    case ReadEmpty => l.(receiver := Reported(l.receiver, 0))
    case ReadFailed => l.(receiver := Reported(l.receiver, MINUS_ONE), failedReads := l.failedReads + 1)
    case Sent(size) => if size <= l.owed then l.(sender := Reported(l.sender, size), owed := l.owed - size) else l
    case CollectReceiver => l.(receiver := Collected(l.receiver))
    case CollectSender => l.(sender := Collected(l.sender))
  }

  function PostedAll(l: Ledger, es: seq<Entry>): Ledger
    decreases |es|
  {
    if es == [] then l else PostedAll(Posted(l, es[0]), es[1..])
  }

  const BLANK := Ledger(ZERO, ZERO, 0, 0)

  /** The receiver's count with its failed reads, and the sender's with what it owes, are k times 2^32 apart. */
  predicate Balances(l: Ledger, k: int) {
    Held(l.receiver) + l.failedReads == Held(l.sender) + l.owed + k * TWO_TO_32
  }

  lemma PostingBalances(l: Ledger, e: Entry, k: int) returns (k': int)
    requires Balances(l, k)
    ensures Balances(Posted(l, e), k')
  {
    k' := k;
    match e
    case Received(size) =>
      var i := CallKeepsBytes(l.receiver, Report(size));
      k' := k + i;
    case ReadEmpty =>
      var i := CallKeepsBytes(l.receiver, Report(0));
      k' := k + i;
    case ReadFailed => k' := FailedReadBalances(l, k);
    case Sent(size) =>
      if size <= l.owed {
        var i := CallKeepsBytes(l.sender, Report(size));
        k' := k - i;
      }
    case CollectReceiver =>
      var i := CallKeepsBytes(l.receiver, Collect);
      k' := k + i;
    case CollectSender =>
      var i := CallKeepsBytes(l.sender, Collect);
      k' := k - i;
  }

  /** A failed read is reported as -1, and counted as 1. */
  lemma FailedReadBalances(l: Ledger, k: int) returns (k': int)
    requires Balances(l, k)
    ensures Balances(Posted(l, ReadFailed), k')
  {
    var i := CallKeepsBytes(l.receiver, Report(MINUS_ONE));
    assert MINUS_ONE + 1 == TWO_TO_32 * TWO_TO_32;
    k' := k + i + TWO_TO_32;
  }

  lemma {:induction false} PostingsBalance(l: Ledger, es: seq<Entry>, k: int) returns (k': int)
    requires Balances(l, k)
    ensures Balances(PostedAll(l, es), k')
    decreases |es|
  {
    k' := k;
    if es != [] {
      k' := PostingBalances(l, es[0], k);
      k' := PostingsBalance(Posted(l, es[0]), es[1..], k');
    }
  }

  lemma SumsOfRemainders(a: nat, x: nat, b: nat, y: nat, k: int)
    requires a + x == b + y + k * TWO_TO_32
    ensures (a % TWO_TO_32 + x) % TWO_TO_32 == (b % TWO_TO_32 + y) % TWO_TO_32
  {
    Wrap32(a);
    Wrap32(b);
    SameBits(a % TWO_TO_32 + x, b % TWO_TO_32 + y, k - a / TWO_TO_32 + b / TWO_TO_32);
  }

  /** A receiver's lifetime count, plus the number of its failed reads, is its sender's lifetime count, plus what that
      sender has still to send, modulo 2^32. */
  predicate LifetimesBalance(l: Ledger) {
    (Lifetime(l.receiver) + l.failedReads) % TWO_TO_32 == (Lifetime(l.sender) + l.owed) % TWO_TO_32
  }

  lemma BalancedLifetimes(l: Ledger, k: int)
    requires Balances(l, k)
    ensures LifetimesBalance(l)
  {
    SumsOfRemainders(Held(l.receiver), l.failedReads, Held(l.sender), l.owed, k);
  }

  /** However reads, sends and collections interleave, in the middle of a drain or between drains, while no send fails:
      the lifetime counts of a receiver and of each of its senders balance. Each failed read takes one byte off. */
  lemma ReceiverBalancesSenders(es: seq<Entry>)
    ensures LifetimesBalance(PostedAll(BLANK, es))
  {
    var k := PostingsBalance(BLANK, es, 0);
    BalancedLifetimes(PostedAll(BLANK, es), k);
  }

  // ---------------------------------------------------------------- the entries of a drain

  /** The reports of a drain: each datagram is read, and then sent; the last read yields nothing. */
  function DrainEntries(q: seq<Datagram>): seq<Entry> {
    if q == [] then [ReadFailed]
    else if q[0] == [] then [ReadEmpty]
    else [Received(|Truncated(q[0])|), Sent(|Truncated(q[0])|)] + DrainEntries(q[1..])
  }

  /** Whether the last read of a drain finds nothing: no datagram of length zero ends the drain before. */
  predicate EndsInFailedRead(q: seq<Datagram>) { [] !in q }

  lemma {:induction false} ReportedFront(c: Counters, size: nat, sizes: seq<nat>)
    ensures ReportedAll(c, [size] + sizes) == ReportedAll(Reported(c, size), sizes)
  {
    var all, n := [size] + sizes, |sizes|;
    if n == 0 {
      assert all == [size] && all[..0] == [];
    } else {
      assert all[..n] == [size] + sizes[..n - 1];
      ReportedFront(c, size, sizes[..n - 1]);
    }
  }

  lemma PostedTwo(l: Ledger, size: nat, es: seq<Entry>)
    requires l.owed == 0
    ensures PostedAll(l, [Received(size), Sent(size)] + es) ==
      PostedAll(l.(receiver := Reported(l.receiver, size), sender := Reported(l.sender, size)), es)
  {
    var all := [Received(size), Sent(size)] + es;
    assert all[1..] == [Sent(size)] + es && all[1..][1..] == es;
  }

  /** They are what ReceiveData does to the counters of the receiver and of every sender. */
  lemma {:induction false} DrainPosts(l: Ledger, q: seq<Datagram>)
    requires l.owed == 0
    ensures PostedAll(l, DrainEntries(q)) ==
      Ledger(ReportedAll(l.receiver, ReadSizes(q)), ReportedAll(l.sender, Sizes(Relayed(q))),
             l.failedReads + (if EndsInFailedRead(q) then 1 else 0), 0)
    decreases |q|
  {
    if q == [] || q[0] == [] {
      assert ReadSizes(q)[..0] == [] && DrainEntries(q)[1..] == [];
    } else {
      var size := |Truncated(q[0])|;
      PostedTwo(l, size, DrainEntries(q[1..]));
      DrainPosts(l.(receiver := Reported(l.receiver, size), sender := Reported(l.sender, size)), q[1..]);
      ReportedFront(l.receiver, size, ReadSizes(q[1..]));
      ReportedFront(l.sender, size, Sizes(Relayed(q[1..])));
      assert Sizes(Relayed(q)) == [size] + Sizes(Relayed(q[1..]));
    }
  }

  /** After a finished call of ReceiveData, the counters of the receiver and of each sender are what these reports make
      of them. */
  lemma FinishedPosts(q: seq<Datagram>, inbox: seq<Datagram>, before: seq<SenderView>, views: seq<SenderView>,
                      counted: Counters, counters: Counters, i: nat, failedReads: nat)
    requires Finished(q, inbox, before, views, counted, counters) && i < |before|
    ensures i < |views| && PostedAll(Ledger(counted, before[i].counters, failedReads, 0), DrainEntries(q)) ==
      Ledger(counters, views[i].counters, failedReads + (if [] in q then 0 else 1), 0)
  {
    DrainPosts(Ledger(counted, before[i].counters, failedReads, 0), q);
  }

  lemma {:induction false} PostedAppend(l: Ledger, es: seq<Entry>, more: seq<Entry>)
    ensures PostedAll(l, es + more) == PostedAll(PostedAll(l, es), more)
    decreases |es|
  {
    if es == [] {
      assert es + more == more;
    } else {
      assert (es + more)[1..] == es[1..] + more;
      PostedAppend(Posted(l, es[0]), es[1..], more);
    }
  }

  /** So whatever the history of the counters, they balance after the call. */
  lemma ReceiveDataBalances(es: seq<Entry>, q: seq<Datagram>, inbox: seq<Datagram>, before: seq<SenderView>,
                            views: seq<SenderView>, counted: Counters, counters: Counters, i: nat, failedReads: nat)
    requires Finished(q, inbox, before, views, counted, counters) && i < |before|
    requires PostedAll(BLANK, es) == Ledger(counted, before[i].counters, failedReads, 0)
    ensures i < |views| && LifetimesBalance(
        Ledger(counters, views[i].counters, failedReads + (if [] in q then 0 else 1), 0))
  {
    FinishedPosts(q, inbox, before, views, counted, counters, i, failedReads);
    PostedAppend(BLANK, es, DrainEntries(q));
    ReceiverBalancesSenders(es + DrainEntries(q));
  }
}
