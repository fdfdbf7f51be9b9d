/**
 The sockets: a receiver that drains the datagrams queued for it and relays each one to its senders.

 The kernel's queue of a receiver is its `inbox`; what a sender has put on the wire is its `sent`. Whether the
 n-th sendto of a sender succeeds is given with the sender.
 */
module Sockets {
  import opened Common
  import opened StatsCollector

  newtype byte = x: int | 0 <= x < 256
  type Datagram = seq<byte>

  const MAX_PACKET_SIZE: nat := 1024

  datatype Broadcast = Unicast | Multicast
  datatype Protocol = UDP | TCP

  /** What a socket is opened with, and the descriptor it is opened as. */
  datatype Addr = Addr(address: string, port: nat, protocol: Protocol, broadcast: Broadcast, interface: nat, fd: int)

  // ---------------------------------------------------------------- what draining a queue means

  /** recvfrom fills a buffer of MAX_PACKET_SIZE and drops the rest of the datagram. */
  function Truncated(d: Datagram): Datagram {
    if |d| <= MAX_PACKET_SIZE then d else d[..MAX_PACKET_SIZE]
  }

  /** The datagrams that a drain relays: all of them, up to one of length zero. */
  function Relayed(q: seq<Datagram>): seq<Datagram> {
    if q == [] || q[0] == [] then [] else [Truncated(q[0])] + Relayed(q[1..])
  }

  /** The datagrams that a drain leaves queued: those behind the one of length zero that ended it. */
  function Leftover(q: seq<Datagram>): seq<Datagram> {
    if q == [] then [] else if q[0] == [] then q[1..] else Leftover(q[1..])
  }

  /** The results of the reads of a drain, as size_t: the last one is zero, or the -1 of a read that finds nothing. */
  function ReadSizes(q: seq<Datagram>): seq<nat> {
    if q == [] then [MINUS_ONE]
    else if q[0] == [] then [0]
    else [|Truncated(q[0])|] + ReadSizes(q[1..])
  }

  function Sizes(ds: seq<Datagram>): seq<nat> {
    seq(|ds|, i requires 0 <= i < |ds| => |ds[i]|)
  }

  /** All that SendData changes: the log, the counters, and how often sendto was called. */
  datatype SenderView = SenderView(sent: seq<Datagram>, counters: Counters, attempts: nat)

  /** A sender that has relayed more datagrams. */
  function Relays(v: SenderView, ds: seq<Datagram>): SenderView {
    SenderView(v.sent + ds, ReportedAll(v.counters, Sizes(ds)), v.attempts + |ds|)
  }

  /** A sender whose sendto has failed. */
  function Refuses(v: SenderView): SenderView {
    v.(attempts := v.attempts + 1)
  }

  class SenderSocket {
    const addr: Addr
    const accepts: nat -> bool
    const stats: StatsCollector
    var attempts: nat
    var sent: seq<Datagram>

    constructor (addr: Addr, accepts: nat -> bool, stats: StatsCollector)
      ensures this.addr == addr && this.accepts == accepts && this.stats == stats && attempts == 0 && sent == []
    {
      this.addr, this.accepts, this.stats := addr, accepts, stats;
      attempts, sent := 0, [];
    }

    ghost function View(): SenderView
      reads this, stats
    {
      SenderView(sent, stats.View(), attempts)
    }

    /** Puts the first bytes of the buffer on the wire and counts them, or throws and leaves log and counters alone. */
    method SendData(buff: array<byte>, length: nat) returns (r: Result<()>)
      requires length <= buff.Length
      modifies this, stats
      ensures r.Success? <==> accepts(old(attempts))
      ensures View() == if r.Success? then Relays(old(View()), [buff[..length]]) else Refuses(old(View()))
      ensures sent == (if r.Success? then old(sent) + [buff[..length]] else old(sent)) && attempts == old(attempts) + 1
      ensures stats.View() == if r.Success? then Reported(old(stats.View()), length) else old(stats.View())
    {
      attempts := attempts + 1;
      if !accepts(attempts - 1) {
        return Failure("Can't send data");
      }
      sent := sent + [buff[..length]];
      stats.ReportBytes(length);
      ReportedOne(old(stats.View()), buff[..length]);
      return Success(());
    }
  }

  lemma ReportedOne(c: Counters, d: Datagram)
    ensures ReportedAll(c, Sizes([d])) == Reported(c, |d|)
  {
    assert Sizes([d])[..0] == [];
  }

  class ReceiverSocket {
    const addr: Addr
    const stats: StatsCollector
    const senders: seq<SenderSocket>
    const buff: array<byte>
    var inbox: seq<Datagram>

    /** No two sockets share a counter, and no sender is listed twice. */
    predicate Valid() {
      && buff.Length == MAX_PACKET_SIZE
      && (forall i, j :: 0 <= i < j < |senders| ==> senders[i] != senders[j] && senders[i].stats != senders[j].stats)
      && (forall i :: 0 <= i < |senders| ==> senders[i].stats != stats)
    }

    constructor (addr: Addr, senders: seq<SenderSocket>, stats: StatsCollector)
      requires forall i, j :: 0 <= i < j < |senders| ==>
        senders[i] != senders[j] && senders[i].stats != senders[j].stats
      requires forall i :: 0 <= i < |senders| ==> senders[i].stats != stats
      ensures Valid() && this.addr == addr && this.senders == senders && this.stats == stats
      ensures fresh(buff) && inbox == []
    {
      this.addr, this.senders, this.stats := addr, senders, stats;
      buff := new byte[MAX_PACKET_SIZE];
      inbox := [];
    }

    /** A non-blocking read: the length of the datagram as far as it fits, or -1 as a size_t. */
    method Recvfrom() returns (count: nat)
      requires Valid()
      modifies this, buff
      ensures old(inbox) == [] ==> count == MINUS_ONE && inbox == []
      ensures old(inbox) != [] ==>
        count <= MAX_PACKET_SIZE && buff[..count] == Truncated(old(inbox)[0]) && inbox == old(inbox)[1..]
    {
      if inbox == [] {
        return MINUS_ONE;
      }
      var d := Truncated(inbox[0]);
      count := |d|;
      forall i | 0 <= i < count {
        buff[i] := d[i];
      }
      inbox := inbox[1..];
    }

    /** A read, and its report. */
    method ReadAndReport() returns (count: nat)
      requires Valid()
      modifies this, buff, stats
      ensures old(inbox) == [] ==> count == MINUS_ONE && inbox == []
      ensures old(inbox) != [] ==>
        count <= MAX_PACKET_SIZE && buff[..count] == Truncated(old(inbox)[0]) && inbox == old(inbox)[1..]
      ensures stats.View() == Reported(old(stats.View()), count) && Views() == old(Views())
    {
      count := Recvfrom();
      stats.ReportBytes(count);
    }

    /** What has become of every sender. */
    ghost function Views(): (views: seq<SenderView>)
      reads senders, set s | s in senders :: s.stats
      ensures |views| == |senders| && forall i :: 0 <= i < |senders| ==> views[i] == senders[i].View()
    {
      seq(|senders|, i requires 0 <= i < |senders| reads senders, set s | s in senders :: s.stats => senders[i].View())
    }

    method SendTo(k: nat, count: nat) returns (r: Result<()>)
      requires Valid() && count <= MAX_PACKET_SIZE && k < |senders|
      modifies senders[k], senders[k].stats
      ensures r.Success? <==> senders[k].accepts(old(senders[k].attempts))
      ensures var view := old(Views())[k];
        Views() == old(Views())[k := if r.Success? then Relays(view, [buff[..count]]) else Refuses(view)]
    {
      r := senders[k].SendData(buff, count);
    }

    /** One datagram to every sender, in the order of the list, until one throws. */
    method FanOut(count: nat) returns (r: Result<()>, ghost at: nat)
      requires Valid() && count <= MAX_PACKET_SIZE
      modifies set s | s in senders, set s | s in senders :: s.stats
      ensures r.Success? <==> forall i :: 0 <= i < |senders| ==> senders[i].accepts(old(Views())[i].attempts)
      ensures Views() == FannedOut(old(Views()), [buff[..count]], at)
      ensures inbox == old(inbox) && stats.View() == old(stats.View()) && buff[..count] == old(buff[..count])
      ensures if r.Success? then at == |senders| else at < |senders| && !senders[at].accepts(old(Views())[at].attempts)
    {
      ghost var before, d := Views(), buff[..count];
      at := 0;
      var k := 0;
      assert SentTo(before, [d], 0) == before;
      while k < |senders|
        invariant at == k <= |senders|
        invariant forall i :: 0 <= i < k ==> senders[i].accepts(before[i].attempts)
        invariant Views() == SentTo(before, [d], k) && buff[..count] == d
      {
        SentToNext(before, [d], k);
        var sent := SendTo(k, count);
        if sent.Failure? {
          return sent, k;
        }
        k, at := k + 1, at + 1;
      }
      assert SentTo(before, [d], k) == FannedOut(before, [d], k);
      return Success(()), k;
    }

    predicate Accepts(i: nat, v: SenderView, k: nat)
      requires i < |senders|
    {
      senders[i].accepts(v.attempts + k)
    }

    /** Whether every sender's next calls of sendto, so many of them, succeed. */
    ghost predicate AllAccept(views: seq<SenderView>, count: nat)
      requires |views| == |senders|
    {
      forall i, k :: 0 <= i < |senders| && 0 <= k < count ==> Accepts(i, views[i], k)
    }

    lemma AcceptedOneMore(before: seq<SenderView>, ds: seq<Datagram>)
      requires |before| == |senders| && AllAccept(before, |ds|)
      ensures AllAccept(before, |ds| + 1) <==>
        forall i :: 0 <= i < |senders| ==> senders[i].accepts(RelayedToAll(before, ds)[i].attempts)
    {
      assert forall i :: 0 <= i < |senders| ==>
        (Accepts(i, before[i], |ds|) <==> senders[i].accepts(RelayedToAll(before, ds)[i].attempts));
    }

    lemma RefusedNext(before: seq<SenderView>, ds: seq<Datagram>, at: nat)
      requires |before| == |senders| && at < |senders| && !senders[at].accepts(RelayedToAll(before, ds)[at].attempts)
      ensures !Accepts(at, before[at], |ds|)
    {
    }

    /** The datagram at the head of the queue was read into the buffer, and is relayed; `counters` is what they were
        before the read. */
    method RelayHead(count: nat, ghost head: seq<Datagram>, ghost q: seq<Datagram>, ghost done: seq<Datagram>,
                     ghost before: seq<SenderView>, ghost counted: Counters, ghost counters: Counters)
      returns (r: Result<()>, ghost at: nat)
      requires Valid() && |before| == |senders| && 0 < count <= MAX_PACKET_SIZE
      requires head != [] && buff[..count] == Truncated(head[0]) && inbox == head[1..]
      requires Underway(q, head, done, before, Views(), counted, counters) && AllAccept(before, |done|)
      requires stats.View() == Reported(counters, count)
      modifies set s | s in senders, set s | s in senders :: s.stats
      ensures r.Success? ==> AllAccept(before, |done| + 1)
      ensures r.Success? ==> Underway(q, inbox, done + [Truncated(head[0])], before, Views(), counted, stats.View())
      ensures r.Failure? ==> Interrupted(q, inbox, |done|, at, before, Views(), counted, stats.View())
      ensures r.Failure? ==> at < |senders| && !Accepts(at, before[at], |done|)
      ensures inbox == old(inbox)
    {
      ghost var views, d := Views(), Truncated(head[0]);
      r, at := FanOut(count);
      assert Views() == FannedOut(views, [d], at) && stats.View() == Reported(counters, |d|);
      if r.Success? {
        AcceptedOneMore(before, done);
        UnderwayNext(q, head, done, before, views, counted, counters);
      } else {
        RefusedNext(before, done, at);
        UnderwayStops(q, head, done, at, before, views, counted, counters);
      }
    }

    /** One round of the loop of ReceiveData; `q`, `before` and `counted` are inbox, senders and counters as
        ReceiveData found them, and `done` is what it has relayed. */
    method ReadAndRelay(ghost q: seq<Datagram>, ghost before: seq<SenderView>, ghost counted: Counters,
                        ghost done: seq<Datagram>)
      returns (r: Result<()>, more: bool, ghost at: nat)
      requires Valid() && |before| == |senders|
      requires Underway(q, inbox, done, before, Views(), counted, stats.View()) && AllAccept(before, |done|)
      modifies this, buff, stats, set s | s in senders, set s | s in senders :: s.stats
      ensures more ==> r.Success? && old(inbox) != [] && inbox == old(inbox)[1..]
      ensures more ==> AllAccept(before, |done| + 1)
      ensures more ==> Underway(q, inbox, done + [Truncated(old(inbox)[0])], before, Views(), counted, stats.View())
      ensures !more && r.Success? ==>
        Finished(q, inbox, before, Views(), counted, stats.View()) && |done| == |Relayed(q)|
      ensures r.Failure? ==> Interrupted(q, inbox, |done|, at, before, Views(), counted, stats.View())
      ensures r.Failure? ==> at < |senders| && !Accepts(at, before[at], |done|)
    {
      at := 0;
      ghost var head, views, counters := inbox, Views(), stats.View();
      var count := ReadAndReport();
      if 0 < count <= MAX_PACKET_SIZE {
        r, at := RelayHead(count, head, q, done, before, counted, counters);
        more := r.Success?;
      } else {
        UnderwayEnds(q, head, done, before, views, counted, counters);
        r, more := Success(()), false;
      }
    }

    /** Reads and relays until a read yields nothing, or a sender throws: then `n` datagrams have been relayed to
        all, and one more to the senders before `at`. */
    method ReceiveData() returns (r: Result<()>, ghost n: nat, ghost at: nat)
      requires Valid()
      modifies this, buff, stats, set s | s in senders, set s | s in senders :: s.stats
      ensures r.Success? <==> AllAccept(old(Views()), |Relayed(old(inbox))|)
      ensures r.Success? ==> Finished(old(inbox), inbox, old(Views()), Views(), old(stats.View()), stats.View())
      ensures r.Failure? ==>
        Interrupted(old(inbox), inbox, n, at, old(Views()), Views(), old(stats.View()), stats.View())
      ensures r.Failure? ==> at < |senders| && !Accepts(at, old(Views())[at], n)
      ensures r.Success? ==> stats.View() == ReportedAll(old(stats.View()), ReadSizes(old(inbox)))
      ensures r.Failure? ==>
        && n < |Relayed(old(inbox))| && inbox == old(inbox)[n + 1..]
        && stats.View() == ReportedAll(old(stats.View()), Sizes(Relayed(old(inbox))[..n + 1]))
    {
      ghost var q, before, counted := inbox, Views(), stats.View();
      ghost var done: seq<Datagram> := [];
      NothingRelayed(before);
      r, n, at := Success(()), 0, 0;
      var more := true;
      while more
        invariant r.Success? && n == |done| && AllAccept(before, n)
        invariant if more then Underway(q, inbox, done, before, Views(), counted, stats.View())
          else Finished(q, inbox, before, Views(), counted, stats.View()) && n == |Relayed(q)|
        decreases more, |inbox|
      {
        ghost var head := inbox;
        r, more, at := ReadAndRelay(q, before, counted, done);
        if r.Failure? {
          return r, n, at;
        }
        if more { ghost var d := Truncated(head[0]); done, n := done + [d], n + 1; }
      }
    }
  }

  /** A drain of q in which `done` has been relayed so far. */
  predicate Underway(q: seq<Datagram>, inbox: seq<Datagram>, done: seq<Datagram>,
                     before: seq<SenderView>, views: seq<SenderView>, counted: Counters, counters: Counters) {
    Drained(q, inbox, done) && views == RelayedToAll(before, done) && counters == ReportedAll(counted, Sizes(done))
  }

  /** A drain of q that a read of nothing has ended: all senders have relayed the same datagrams, in order. */
  predicate Finished(q: seq<Datagram>, inbox: seq<Datagram>,
                     before: seq<SenderView>, views: seq<SenderView>, counted: Counters, counters: Counters) {
    && inbox == Leftover(q) && views == RelayedToAll(before, Relayed(q))
    && counters == ReportedAll(counted, ReadSizes(q))
  }

  /** A drain of q that a sender has ended: n datagrams relayed to all, and one more to the senders before `at`. */
  predicate Interrupted(q: seq<Datagram>, inbox: seq<Datagram>, n: nat, at: nat,
                        before: seq<SenderView>, views: seq<SenderView>, counted: Counters, counters: Counters) {
    && n < |Relayed(q)| && n < |q| && inbox == q[n + 1..]
    && views == FannedOut(RelayedToAll(before, Relayed(q)[..n]), [Relayed(q)[n]], at)
    && counters == ReportedAll(counted, Sizes(Relayed(q)[..n + 1]))
  }

  lemma NothingRelayed(before: seq<SenderView>)
    ensures RelayedToAll(before, []) == before
  {
    assert forall i :: 0 <= i < |before| ==> Relays(before[i], []) == before[i];
  }

  /** One more datagram went to all, */
  lemma UnderwayNext(q: seq<Datagram>, inbox: seq<Datagram>, done: seq<Datagram>,
                     before: seq<SenderView>, views: seq<SenderView>, counted: Counters, counters: Counters)
    requires Underway(q, inbox, done, before, views, counted, counters) && inbox != [] && inbox[0] != []
    ensures var d := Truncated(inbox[0]);
      Underway(q, inbox[1..], done + [d], before, FannedOut(views, [d], |views|), counted, Reported(counters, |d|))
  {
    var d := Truncated(inbox[0]);
    DrainedNext(q, inbox, done);
    SizesAppend(done, d);
    ReportedAppend(counted, Sizes(done), |d|);
    RelayedToAllAppend(before, done, d);
    assert FannedOut(views, [d], |views|) == RelayedToAll(views, [d]);
  }

  /** or was refused by one sender. */
  lemma UnderwayStops(q: seq<Datagram>, inbox: seq<Datagram>, done: seq<Datagram>, at: nat,
                      before: seq<SenderView>, views: seq<SenderView>, counted: Counters, counters: Counters)
    requires Underway(q, inbox, done, before, views, counted, counters) && inbox != [] && inbox[0] != []
    ensures var d := Truncated(inbox[0]);
      Interrupted(q, inbox[1..], |done|, at, before, FannedOut(views, [d], at), counted, Reported(counters, |d|))
  {
    var d := Truncated(inbox[0]);
    DrainedNext(q, inbox, done);
    SizesAppend(done, d);
    ReportedAppend(counted, Sizes(done), |d|);
    assert Relayed(q)[..|done| + 1] == done + [d];
  }

  lemma UnderwayEnds(q: seq<Datagram>, inbox: seq<Datagram>, done: seq<Datagram>,
                     before: seq<SenderView>, views: seq<SenderView>, counted: Counters, counters: Counters)
    requires Underway(q, inbox, done, before, views, counted, counters) && (inbox == [] || inbox[0] == [])
    ensures Relayed(q) == done
    ensures Finished(q, if inbox == [] then [] else inbox[1..], before, views, counted,
                     Reported(counters, if inbox == [] then MINUS_ONE else 0))
  {
    ReportedAppend(counted, Sizes(done), if inbox == [] then MINUS_ONE else 0);
  }

  /** The senders after all of them relayed some datagrams. */
  function RelayedToAll(before: seq<SenderView>, ds: seq<Datagram>): seq<SenderView> {
    seq(|before|, i requires 0 <= i < |before| => Relays(before[i], ds))
  }

  /** How far a drain of q has come: what it has relayed, and what is still queued. */
  predicate Drained(q: seq<Datagram>, inbox: seq<Datagram>, done: seq<Datagram>) {
    && |done| <= |q| && inbox == q[|done|..]
    && Relayed(q) == done + Relayed(inbox)
    && Leftover(q) == Leftover(inbox)
    && ReadSizes(q) == Sizes(done) + ReadSizes(inbox)
  }

  lemma DrainedNext(q: seq<Datagram>, inbox: seq<Datagram>, done: seq<Datagram>)
    requires Drained(q, inbox, done) && inbox != [] && inbox[0] != []
    ensures Drained(q, inbox[1..], done + [Truncated(inbox[0])])
    ensures |done| < |Relayed(q)| && Relayed(q)[..|done|] == done && Relayed(q)[|done|] == Truncated(inbox[0])
  {
    var d := Truncated(inbox[0]);
    assert done + ([d] + Relayed(inbox[1..])) == (done + [d]) + Relayed(inbox[1..]);
    SizesAppend(done, d);
    assert Sizes(done) + ([|d|] + ReadSizes(inbox[1..])) == (Sizes(done) + [|d|]) + ReadSizes(inbox[1..]);
  }

  lemma SizesAppend(ds: seq<Datagram>, d: Datagram)
    ensures Sizes(ds + [d]) == Sizes(ds) + [|d|]
  {
  }

  lemma ReportedAppend(c: Counters, sizes: seq<nat>, size: nat)
    ensures ReportedAll(c, sizes + [size]) == Reported(ReportedAll(c, sizes), size)
  {
    assert (sizes + [size])[..|sizes|] == sizes;
  }

  lemma RelayedToAllAppend(before: seq<SenderView>, ds: seq<Datagram>, d: Datagram)
    ensures RelayedToAll(RelayedToAll(before, ds), [d]) == RelayedToAll(before, ds + [d])
  {
    forall i | 0 <= i < |before|
      ensures Relays(Relays(before[i], ds), [d]) == Relays(before[i], ds + [d])
    {
      RelaysAppend(before[i], ds, d);
    }
  }

  lemma RelaysAppend(v: SenderView, ds: seq<Datagram>, d: Datagram)
    ensures Relays(Relays(v, ds), [d]) == Relays(v, ds + [d])
  {
    SizesAppend(ds, d);
    ReportedAppend(v.counters, Sizes(ds), |d|);
    ReportedOne(ReportedAll(v.counters, Sizes(ds)), d);
    assert v.sent + ds + [d] == v.sent + (ds + [d]);
  }

  /** The senders after a datagram went to the first k of them. */
  function SentTo(before: seq<SenderView>, d: seq<Datagram>, k: nat): seq<SenderView> {
    seq(|before|, i requires 0 <= i < |before| => if i < k then Relays(before[i], d) else before[i])
  }

  lemma SentToNext(before: seq<SenderView>, d: seq<Datagram>, k: nat)
    requires k < |before|
    ensures SentTo(before, d, k)[k := Relays(before[k], d)] == SentTo(before, d, k + 1)
    ensures SentTo(before, d, k)[k := Refuses(before[k])] == FannedOut(before, d, k)
    ensures SentTo(before, d, k)[k] == before[k]
  {
  }

  /** The senders after a datagram went to those before `at`, and the one at `at`, if any, threw. */
  function FannedOut(before: seq<SenderView>, d: seq<Datagram>, at: nat): seq<SenderView> {
    seq(|before|, i requires 0 <= i < |before| =>
      if i < at then Relays(before[i], d) else if i == at then Refuses(before[i]) else before[i])
  }
}
