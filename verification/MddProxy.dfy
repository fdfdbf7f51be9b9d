/**
 The proxy: sockets opened for the routing graph of the configuration and registered with epoll, and the loop that
 hands the ready ones to the dispatcher.
 */
module MddProxy {
  import opened Common
  import opened StatsCollector
  import opened Sockets
  import opened FeedConfig
  import W = WorkDispatcher
  import Pool

  const INADDR_NONE: nat := 0xFFFF_FFFF
  const INADDR_ANY: nat := 0

  /** What the system answers: inet_addr of an address, the descriptor of the n-th socket that is opened, if it can
      be, and whether each sendto on it succeeds. */
  datatype Environment = Environment(inetAddr: string -> nat, open: nat -> Option<int>, accepts: nat -> nat -> bool) {

    /** Whether the i-th opening from an offset on succeeds, and its descriptor. */
    predicate CanOpen(offset: nat, i: nat) { open(offset + i).Some? }

    function Descriptor(offset: nat, i: nat): int {
      if CanOpen(offset, i) then open(offset + i).value else -1
    }
  }

  /** Open sockets have different descriptors. */
  ghost predicate FreshDescriptors(env: Environment) {
    forall m, n :: m != n && env.open(m).Some? ==> env.open(m) != env.open(n)
  }

  class Epoller {
    var registered: seq<int>
    var fdCount: nat
    var closed: bool

    constructor ()
      ensures registered == [] && fdCount == 0 && !closed
    {
      registered, fdCount, closed := [], 0, false;
    }

    /** epoll_ctl refuses a descriptor that it has already, and a closed handle. */
    method RegisterSocket(sock: int) returns (r: Result<()>)
      modifies this`registered, this`fdCount
      ensures r.Success? <==> sock !in old(registered) && !closed
      ensures r.Success? ==> registered == old(registered) + [sock] && fdCount == old(fdCount) + 1
      ensures r.Failure? ==> registered == old(registered) && fdCount == old(fdCount)
    {
      if sock in registered || closed {
        return Failure("Cant't add socket handle to epoll");
      }
      registered := registered + [sock];
      fdCount := fdCount + 1;
      return Success(());
    }

    method CancelWait()
      modifies this`closed
      ensures closed
    {
      closed := true;
    }

    /** epoll_wait returns registered descriptors, each once, and no more than it is asked for; none if the handle is
        closed. */
    predicate MayReturn(events: seq<int>)
      reads this
    {
      && |events| <= fdCount && (closed ==> events == [])
      && (forall i, j :: 0 <= i < j < |events| ==> events[i] != events[j])
      && (forall i :: 0 <= i < |events| ==> events[i] in registered)
    }

    /** Hands the events of one wait to the dispatcher. */
    method WaitForData(dispatcher: W.WorkDispatcher, events: seq<int>) returns (r: Result<()>)
      requires MayReturn(events) && dispatcher.Valid()
      requires forall fd :: fd in registered ==> fd in dispatcher.receivers
      modifies dispatcher, dispatcher.workers, dispatcher.pendingItems
      ensures r.Success? && dispatcher.Valid()
      ensures old(dispatcher.workers) <= dispatcher.workers
      ensures forall i :: |old(dispatcher.workers)| <= i < |dispatcher.workers| ==> fresh(dispatcher.workers[i])
      ensures dispatcher.Knows(events)
      ensures dispatcher.View() == Pool.Run(old(dispatcher.View()), W.Dispatches(dispatcher.Found(events)))
      ensures dispatcher.dispatched == old(dispatcher.dispatched) + dispatcher.Found(events)
      ensures var free := old(dispatcher.freeWorkers);
        dispatcher.Signalled(old(dispatcher.Slots()), free, dispatcher.Taken(|events|, |free|))
    {
      ghost var before := dispatcher.View();
      W.DispatchesAreLogged(before, dispatcher.Found(events));
      r := Success(());
      if |events| > 0 {
        ghost var n;
        r, n := dispatcher.ProcessData(events);
        assert r.Success? ==> events[..n] == events;
      } else {
        assert dispatcher.Found(events) == [] && W.Dispatches(dispatcher.Found(events)) == [];
      }
    }
  }

  // ---------------------------------------------------------------- the routes to open

  /** One MappedReceiver, with the interfaces of its Map. */
  datatype Route = Route(inputInterface: string, outputInterface: string, ends: ReceiverSenders)

  function RoutesOf(feed: InterfaceConfig): seq<Route> {
    seq(|feed.rcvrSenders|, i requires 0 <= i < |feed.rcvrSenders| =>
      Route(feed.inputInterface, feed.outputInterface, feed.rcvrSenders[i]))
  }

  function Routes(feeds: seq<InterfaceConfig>): seq<Route> {
    if feeds == [] then [] else Routes(feeds[..|feeds| - 1]) + RoutesOf(feeds[|feeds| - 1])
  }

  /** The sockets a route needs: one for each of its senders, and one for its receiver, which is opened last. */
  function Needs(route: Route): nat { |route.ends.outputAddresses| + 1 }

  /** The sockets opened before the k-th route's. */
  function Offset(routes: seq<Route>, k: nat): nat
    requires k <= |routes|
  {
    if k == 0 then 0 else Offset(routes, k - 1) + Needs(routes[k - 1])
  }

  function InputInterface(env: Environment, name: string): nat {
    if name == "0.0.0.0" then INADDR_ANY else env.inetAddr(name)
  }

  /** Whether a route can be opened: its interfaces parse, its receiver is declared, and the system opens its
      sockets. */
  predicate Opens(env: Environment, route: Route, offset: nat) {
    && (route.ends.outputAddresses != [] ==> env.inetAddr(route.outputInterface) != INADDR_NONE)
    && InputInterface(env, route.inputInterface) != INADDR_NONE
    && route.ends.inputAddress.Some?
    && forall i :: 0 <= i < Needs(route) ==> env.CanOpen(offset, i)
  }

  predicate RouteOpens(env: Environment, routes: seq<Route>, k: nat)
    requires k < |routes|
  {
    Opens(env, routes[k], Offset(routes, k))
  }

  predicate AllOpen(env: Environment, routes: seq<Route>) {
    forall k :: 0 <= k < |routes| ==> RouteOpens(env, routes, k)
  }

  /** A port is stored in sixteen bits. */
  function SenderAddr(env: Environment, route: Route, output: OutputAddress, fd: int): Addr {
    Addr(output.address, output.port % 0x1_0000, output.protocol, output.broadcastType,
         env.inetAddr(route.outputInterface), fd)
  }

  function ReceiverAddr(env: Environment, route: Route, fd: int): Addr
    requires route.ends.inputAddress.Some?
  {
    var input := route.ends.inputAddress.value;
    Addr(input.address, input.port % 0x1_0000, input.protocol, input.broadcastType,
         InputInterface(env, route.inputInterface), fd)
  }

  /** The receiver relays for a route: its own address is the route's, and its senders are the route's, in order. */
  ghost predicate RelaysFor(env: Environment, socket: ReceiverSocket, route: Route, offset: nat)
    requires Opens(env, route, offset)
  {
    var outputs := route.ends.outputAddresses;
    && socket.Valid()
    && socket.addr == ReceiverAddr(env, route, env.Descriptor(offset, |outputs|))
    && SendersFor(env, socket.senders, route, offset)
  }

  ghost predicate SendersFor(env: Environment, senders: seq<SenderSocket>, route: Route, offset: nat) {
    var outputs := route.ends.outputAddresses;
    && |senders| == |outputs|
    && forall j :: 0 <= j < |outputs| ==>
      && senders[j].addr == SenderAddr(env, route, outputs[j], env.Descriptor(offset, j))
      && senders[j].accepts == env.accepts(offset + j)
  }

  /** No two of the senders are the same or share a counter. */
  predicate Distinct(senders: seq<SenderSocket>) {
    forall i, j :: 0 <= i < j < |senders| ==> senders[i] != senders[j] && senders[i].stats != senders[j].stats
  }

  /** Two receivers have no socket, buffer or counter in common, so that one's drain leaves the other's alone. */
  predicate Apart(a: ReceiverSocket, b: ReceiverSocket) {
    && a != b && a.buff != b.buff && a.stats != b.stats
    && (forall i, j :: 0 <= i < |a.senders| && 0 <= j < |b.senders| ==>
         a.senders[i] != b.senders[j] && a.senders[i].stats != b.senders[j].stats)
    && (forall i :: 0 <= i < |a.senders| ==> a.senders[i].stats != b.stats)
    && (forall j :: 0 <= j < |b.senders| ==> b.senders[j].stats != a.stats)
  }

  ghost predicate AllApart(receivers: map<int, ReceiverSocket>) {
    forall fd, other :: fd in receivers && other in receivers && fd != other ==> Apart(receivers[fd], receivers[other])
  }

  lemma AllApartNext(receivers: map<int, ReceiverSocket>, fd: int, socket: ReceiverSocket)
    requires AllApart(receivers) && fd !in receivers
    requires forall other :: other in receivers ==> Apart(receivers[other], socket)
    ensures AllApart(receivers[fd := socket])
  {
    forall other | other in receivers
      ensures Apart(socket, receivers[other])
    {
      assert Apart(receivers[other], socket);
    }
  }

  /** The k-th descriptor registered is that of a receiver relaying for the k-th route. */
  ghost predicate Row(env: Environment, receivers: map<int, ReceiverSocket>, fd: int, routes: seq<Route>, k: nat)
    requires k < |routes|
  {
    && RouteOpens(env, routes, k)
    && fd == env.Descriptor(Offset(routes, k), Needs(routes[k]) - 1)
    && fd in receivers && RelaysFor(env, receivers[fd], routes[k], Offset(routes, k))
  }

  ghost predicate TableFor(env: Environment, receivers: map<int, ReceiverSocket>, registered: seq<int>,
                           routes: seq<Route>)
  {
    |registered| == |routes| && forall k :: 0 <= k < |routes| ==> Row(env, receivers, registered[k], routes, k)
  }

  lemma {:induction false} OffsetOfPrefix(a: seq<Route>, b: seq<Route>, k: nat)
    requires k <= |a|
    ensures Offset(a + b, k) == Offset(a, k)
  {
    if k > 0 { OffsetOfPrefix(a, b, k - 1); }
  }

  lemma OpensInPrefix(env: Environment, a: seq<Route>, b: seq<Route>, k: nat)
    requires k < |a|
    ensures RouteOpens(env, a + b, k) <==> RouteOpens(env, a, k)
  {
    OffsetOfPrefix(a, b, k);
  }

  lemma OpensAtEnd(env: Environment, routes: seq<Route>, route: Route)
    ensures RouteOpens(env, routes + [route], |routes|) <==> Opens(env, route, Offset(routes, |routes|))
    ensures Offset(routes + [route], |routes| + 1) == Offset(routes, |routes|) + Needs(route)
  {
    OffsetOfPrefix(routes, [route], |routes|);
  }

  lemma PrefixOpens(env: Environment, a: seq<Route>, b: seq<Route>)
    requires AllOpen(env, a + b)
    ensures AllOpen(env, a)
  {
    forall k | 0 <= k < |a|
      ensures RouteOpens(env, a, k)
    {
      OpensInPrefix(env, a, b, k);
      assert RouteOpens(env, a + b, k);
    }
  }

  /** One route that does not open, and the whole does not. */
  lemma OneFails(env: Environment, routes: seq<Route>, route: Route, more: seq<Route>)
    requires !Opens(env, route, Offset(routes, |routes|))
    ensures !AllOpen(env, (routes + [route]) + more)
  {
    OpensAtEnd(env, routes, route);
    OpensInPrefix(env, routes + [route], more, |routes|);
  }

  lemma RowStays(env: Environment, receivers: map<int, ReceiverSocket>, fd: int, routes: seq<Route>, k: nat,
                 route: Route, added: int, socket: ReceiverSocket)
    requires k < |routes| && Row(env, receivers, fd, routes, k) && added != fd
    ensures Row(env, receivers[added := socket], fd, routes + [route], k)
  {
    OffsetOfPrefix(routes, [route], k);
  }

  lemma TableForNext(env: Environment, receivers: map<int, ReceiverSocket>, registered: seq<int>, routes: seq<Route>,
                     route: Route, fd: int, socket: ReceiverSocket)
    requires TableFor(env, receivers, registered, routes) && Opens(env, route, Offset(routes, |routes|))
    requires fd == env.Descriptor(Offset(routes, |routes|), Needs(route) - 1) && fd !in registered
    requires RelaysFor(env, socket, route, Offset(routes, |routes|))
    ensures TableFor(env, receivers[fd := socket], registered + [fd], routes + [route])
  {
    var rows := registered + [fd];
    forall k | 0 <= k < |rows|
      ensures Row(env, receivers[fd := socket], rows[k], routes + [route], k)
    {
      if k < |routes| {
        assert rows[k] == registered[k] && rows[k] in registered;
        RowStays(env, receivers, registered[k], routes, k, route, fd, socket);
      } else {
        RowAdded(env, receivers, routes, route, fd, socket);
      }
    }
  }

  lemma RowAdded(env: Environment, receivers: map<int, ReceiverSocket>, routes: seq<Route>,
                 route: Route, fd: int, socket: ReceiverSocket)
    requires Opens(env, route, Offset(routes, |routes|))
    requires fd == env.Descriptor(Offset(routes, |routes|), Needs(route) - 1)
    requires RelaysFor(env, socket, route, Offset(routes, |routes|))
    ensures Row(env, receivers[fd := socket], fd, routes + [route], |routes|)
  {
    OpensAtEnd(env, routes, route);
    OffsetOfPrefix(routes, [route], |routes|);
  }

  lemma TableOpens(env: Environment, receivers: map<int, ReceiverSocket>, registered: seq<int>, routes: seq<Route>)
    requires TableFor(env, receivers, registered, routes)
    ensures AllOpen(env, routes)
  {
    forall k | 0 <= k < |routes|
      ensures RouteOpens(env, routes, k)
    {
      assert Row(env, receivers, registered[k], routes, k);
    }
  }

  // ---------------------------------------------------------------- the routes, feed by feed

  /** The MappedReceivers of some feeds. */
  function RouteCount(feeds: seq<InterfaceConfig>): nat {
    if feeds == [] then 0 else RouteCount(feeds[..|feeds| - 1]) + |feeds[|feeds| - 1].rcvrSenders|
  }

  lemma {:induction false} RoutesCounted(feeds: seq<InterfaceConfig>)
    ensures |Routes(feeds)| == RouteCount(feeds)
  {
    if feeds != [] { RoutesCounted(feeds[..|feeds| - 1]); }
  }

  /** The i-th MappedReceiver of a feed comes behind those of the feeds before it, with the feed's two interfaces. */
  lemma {:induction false} RouteAt(feeds: seq<InterfaceConfig>, f: nat, i: nat)
    requires f < |feeds| && i < |feeds[f].rcvrSenders|
    ensures var k := RouteCount(feeds[..f]) + i;
      && k < |Routes(feeds)|
      && Routes(feeds)[k].inputInterface == feeds[f].inputInterface
      && Routes(feeds)[k].outputInterface == feeds[f].outputInterface
      && Routes(feeds)[k].ends == feeds[f].rcvrSenders[i]
  {
    var n := |feeds| - 1;
    RoutesCounted(feeds[..n]);
    if f < n {
      assert feeds[..n][..f] == feeds[..f];
      RouteAt(feeds[..n], f, i);
    }
  }

  /** The socket relays for the i-th MappedReceiver of a feed, field by field: received on the feed's input interface,
      or on any for "0.0.0.0", and sent on its output interface, each at its declared address, port and protocol. */
  ghost predicate ServesMapped(env: Environment, socket: ReceiverSocket, feed: InterfaceConfig, i: nat)
    requires i < |feed.rcvrSenders|
  {
    var ends := feed.rcvrSenders[i];
    && ends.inputAddress.Some?
    && socket.addr.interface == (if feed.inputInterface == "0.0.0.0" then 0 else env.inetAddr(feed.inputInterface))
    && socket.addr.address == ends.inputAddress.value.address
    && socket.addr.port == ends.inputAddress.value.port % 0x1_0000
    && socket.addr.protocol == ends.inputAddress.value.protocol
    && socket.addr.broadcast == ends.inputAddress.value.broadcastType
    && |socket.senders| == |ends.outputAddresses|
    && forall j :: 0 <= j < |socket.senders| ==>
      && socket.senders[j].addr.interface == env.inetAddr(feed.outputInterface)
      && socket.senders[j].addr.address == ends.outputAddresses[j].address
      && socket.senders[j].addr.port == ends.outputAddresses[j].port % 0x1_0000
      && socket.senders[j].addr.protocol == ends.outputAddresses[j].protocol
      && socket.senders[j].addr.broadcast == ends.outputAddresses[j].broadcastType
  }

  /** The descriptor registered for the i-th MappedReceiver of the f-th feed is that of such a socket. */
  ghost predicate MappedAt(env: Environment, receivers: map<int, ReceiverSocket>, registered: seq<int>,
                           feeds: seq<InterfaceConfig>, f: nat, i: nat)
    requires f < |feeds| && i < |feeds[f].rcvrSenders|
  {
    var k := RouteCount(feeds[..f]) + i;
    && k < |registered| && registered[k] in receivers && receivers[registered[k]].addr.fd == registered[k]
    && ServesMapped(env, receivers[registered[k]], feeds[f], i)
  }

  lemma OpenedAsDeclared(env: Environment, receivers: map<int, ReceiverSocket>, registered: seq<int>,
                         feeds: seq<InterfaceConfig>, f: nat, i: nat)
    requires TableFor(env, receivers, registered, Routes(feeds)) && f < |feeds| && i < |feeds[f].rcvrSenders|
    ensures MappedAt(env, receivers, registered, feeds, f, i)
  {
    RouteAt(feeds, f, i);
    assert Row(env, receivers, registered[RouteCount(feeds[..f]) + i], Routes(feeds), RouteCount(feeds[..f]) + i);
  }

  /** The sockets that some MappedReceivers need: each one for itself, and one for each of its outputs. */
  function SocketCount(ends: seq<ReceiverSenders>): nat {
    if ends == [] then 0 else SocketCount(ends[..|ends| - 1]) + |ends[|ends| - 1].outputAddresses| + 1
  }

  function SocketTotal(feeds: seq<InterfaceConfig>): nat {
    if feeds == [] then 0 else SocketTotal(feeds[..|feeds| - 1]) + SocketCount(feeds[|feeds| - 1].rcvrSenders)
  }

  lemma {:induction false} OffsetCounts(before: seq<Route>, feed: InterfaceConfig, i: nat)
    requires i <= |feed.rcvrSenders|
    ensures Offset(before + RoutesOf(feed), |before| + i) ==
            Offset(before, |before|) + SocketCount(feed.rcvrSenders[..i])
  {
    if i == 0 {
      OffsetOfPrefix(before, RoutesOf(feed), |before|);
    } else {
      OffsetCounts(before, feed, i - 1);
      assert feed.rcvrSenders[..i][..i - 1] == feed.rcvrSenders[..i - 1];
    }
  }

  lemma {:induction false} OffsetTotals(feeds: seq<InterfaceConfig>)
    ensures Offset(Routes(feeds), |Routes(feeds)|) == SocketTotal(feeds)
  {
    if feeds != [] {
      var n := |feeds| - 1;
      OffsetTotals(feeds[..n]);
      OffsetCounts(Routes(feeds[..n]), feeds[n], |feeds[n].rcvrSenders|);
      assert feeds[n].rcvrSenders[..|feeds[n].rcvrSenders|] == feeds[n].rcvrSenders;
    }
  }

  /** The system opens the next count sockets from an offset on. */
  predicate OpensSockets(env: Environment, offset: nat, count: nat) {
    forall i :: 0 <= i < count ==> env.CanOpen(offset, i)
  }

  lemma OpensInARow(env: Environment, offset: nat, count: nat)
    ensures OpensSockets(env, 0, offset + count) <==> OpensSockets(env, 0, offset) && OpensSockets(env, offset, count)
  {
    forall i | 0 <= i < count
      ensures env.CanOpen(offset, i) <==> env.CanOpen(0, offset + i)
    {
    }
    if OpensSockets(env, 0, offset) && OpensSockets(env, offset, count) {
      forall n | 0 <= n < offset + count
        ensures env.CanOpen(0, n)
      {
        if offset <= n { assert env.CanOpen(offset, n - offset); }
      }
    }
  }

  predicate RouteSockets(env: Environment, routes: seq<Route>, k: nat)
    requires k < |routes|
  {
    OpensSockets(env, Offset(routes, k), Needs(routes[k]))
  }

  /** The sockets of the first k routes are opened one after the other. */
  lemma {:induction false} RoutesInARow(env: Environment, routes: seq<Route>, k: nat)
    requires k <= |routes|
    ensures OpensSockets(env, 0, Offset(routes, k)) <==>
      forall j :: 0 <= j < k ==> RouteSockets(env, routes, j)
  {
    if k > 0 {
      RoutesInARow(env, routes, k - 1);
      OpensInARow(env, Offset(routes, k - 1), Needs(routes[k - 1]));
      assert RouteSockets(env, routes, k - 1) <==> OpensSockets(env, Offset(routes, k - 1), Needs(routes[k - 1]));
      assert Offset(routes, k) == Offset(routes, k - 1) + Needs(routes[k - 1]);
    }
  }

  /** The interfaces of a MappedReceiver are addresses, the output's if it has outputs, and its receiver is declared. */
  predicate Readable(env: Environment, feed: InterfaceConfig, i: nat)
    requires i < |feed.rcvrSenders|
  {
    && (feed.rcvrSenders[i].outputAddresses != [] ==> env.inetAddr(feed.outputInterface) != 0xFFFF_FFFF)
    && (feed.inputInterface == "0.0.0.0" || env.inetAddr(feed.inputInterface) != 0xFFFF_FFFF)
    && feed.rcvrSenders[i].inputAddress.Some?
  }

  predicate RouteReadable(env: Environment, route: Route) {
    && (route.ends.outputAddresses != [] ==> env.inetAddr(route.outputInterface) != INADDR_NONE)
    && InputInterface(env, route.inputInterface) != INADDR_NONE && route.ends.inputAddress.Some?
  }

  lemma {:induction false} AllReadable(env: Environment, feeds: seq<InterfaceConfig>)
    ensures (forall k :: 0 <= k < |Routes(feeds)| ==> RouteReadable(env, Routes(feeds)[k])) <==>
      forall f, i :: 0 <= f < |feeds| && 0 <= i < |feeds[f].rcvrSenders| ==> Readable(env, feeds[f], i)
  {
    if feeds != [] {
      var n := |feeds| - 1;
      var before, here := Routes(feeds[..n]), RoutesOf(feeds[n]);
      AllReadable(env, feeds[..n]);
      assert forall i :: 0 <= i < |here| ==> (RouteReadable(env, here[i]) <==> Readable(env, feeds[n], i));
      assert forall k :: 0 <= k < |before| ==> Routes(feeds)[k] == before[k];
      assert forall i :: 0 <= i < |here| ==> Routes(feeds)[|before| + i] == here[i];
      assert forall f :: 0 <= f < n ==> feeds[..n][f] == feeds[f];
    }
  }

  /** All routes of some feeds can be opened exactly when each MappedReceiver can be read so, and the system opens as
      many sockets as they need. */
  lemma AllOpenExactlyWhen(env: Environment, feeds: seq<InterfaceConfig>)
    ensures AllOpen(env, Routes(feeds)) <==>
      && (forall f, i :: 0 <= f < |feeds| && 0 <= i < |feeds[f].rcvrSenders| ==> Readable(env, feeds[f], i))
      && forall n :: 0 <= n < SocketTotal(feeds) ==> env.CanOpen(0, n)
  {
    var routes := Routes(feeds);
    AllReadable(env, feeds);
    RoutesInARow(env, routes, |routes|);
    OffsetTotals(feeds);
    forall k | 0 <= k < |routes|
      ensures RouteOpens(env, routes, k) <==>
              RouteReadable(env, routes[k]) && RouteSockets(env, routes, k)
    {
    }
    assert AllOpen(env, routes) <==>
           (forall k :: 0 <= k < |routes| ==> RouteReadable(env, routes[k])) &&
           (forall k :: 0 <= k < |routes| ==> RouteSockets(env, routes, k));
  }

  class MddProxy {
    const env: Environment
    const epoller: Epoller
    var receivers: map<int, ReceiverSocket>
    var openCount: nat
    var continueProcessing: bool

    /** The table and epoll agree; once the proxy is stopped, epoll is closed. */
    ghost predicate Agree()
      reads this, epoller
    {
      && (continueProcessing || epoller.closed)
      && epoller.fdCount == |epoller.registered|
      && (forall i, j :: 0 <= i < j < |epoller.registered| ==> epoller.registered[i] != epoller.registered[j])
      && (forall fd :: fd in receivers <==> fd in epoller.registered)
    }

    ghost predicate Opened(fd: int)
      reads this
    {
      exists n :: 0 <= n < openCount && env.open(n) == Some(fd)
    }

    ghost predicate OnlyOpened()
      reads this, epoller
    {
      forall fd :: fd in epoller.registered ==> Opened(fd)
    }

    constructor (env: Environment)
      ensures this.env == env && Agree() && OnlyOpened() && fresh(epoller)
      ensures receivers == map[] && openCount == 0 && epoller.registered == [] && !epoller.closed && continueProcessing
    {
      this.env, receivers, openCount, continueProcessing := env, map[], 0, true;
      epoller := new Epoller();
    }

    /** The sockets of a route's senders. */
    method OpenSenders(route: Route) returns (r: Result<seq<SenderSocket>>)
      modifies this`openCount
      ensures var outputs := route.ends.outputAddresses; r.Success? <==>
        && (outputs != [] ==> env.inetAddr(route.outputInterface) != INADDR_NONE)
        && forall i :: 0 <= i < |outputs| ==> env.CanOpen(old(openCount), i)
      ensures r.Success? ==> openCount == old(openCount) + |route.ends.outputAddresses|
      ensures r.Success? ==> SendersFor(env, r.value, route, old(openCount)) && Distinct(r.value)
      ensures r.Success? ==> forall i :: 0 <= i < |r.value| ==> fresh(r.value[i]) && fresh(r.value[i].stats)
    {
      var outputs := route.ends.outputAddresses;
      var senderList: seq<SenderSocket> := [];
      for i := 0 to |outputs|
        invariant i > 0 ==> env.inetAddr(route.outputInterface) != INADDR_NONE
        invariant openCount == old(openCount) + i && |senderList| == i && Distinct(senderList)
        invariant forall k :: 0 <= k < i ==> env.CanOpen(old(openCount), k)
        invariant forall k :: 0 <= k < i ==> fresh(senderList[k]) && fresh(senderList[k].stats)
        invariant forall k :: 0 <= k < i ==>
          && senderList[k].addr == SenderAddr(env, route, outputs[k], env.Descriptor(old(openCount), k))
          && senderList[k].accepts == env.accepts(old(openCount) + k)
      {
        if env.inetAddr(route.outputInterface) == INADDR_NONE {
          return Failure("Invalid output interface address");
        }
        var fd := env.open(openCount);
        if fd.None? {
          assert !env.CanOpen(old(openCount), i);
          return Failure("can't create sender");
        }
        var statsCollector := new StatsCollector(0);
        var senderAddr := SenderAddr(env, route, outputs[i], fd.value);
        var senderObj := new SenderSocket(senderAddr, env.accepts(openCount), statsCollector);
        openCount := openCount + 1;
        senderList := senderList + [senderObj];
      }
      return Success(senderList);
    }

    /** The sockets of a route. */
    method OpenRoute(route: Route) returns (r: Result<(int, ReceiverSocket)>)
      modifies this`openCount
      ensures r.Success? <==> Opens(env, route, old(openCount))
      ensures r.Success? ==> var (fd, socket) := r.value;
        && openCount == old(openCount) + Needs(route) && Opened(fd)
        && fd == env.Descriptor(old(openCount), Needs(route) - 1) && RelaysFor(env, socket, route, old(openCount))
        && fresh(socket) && fresh(socket.buff) && fresh(socket.stats)
        && forall i :: 0 <= i < |socket.senders| ==> fresh(socket.senders[i]) && fresh(socket.senders[i].stats)
    {
      var senderList := OpenSenders(route);
      if senderList.Failure? {
        return Failure(senderList.error);
      }
      if InputInterface(env, route.inputInterface) == INADDR_NONE {
        return Failure("Invalid input interface address");
      }
      if route.ends.inputAddress.None? {
        return Failure("undefined: the receiver is not declared");
      }
      var fd := env.open(openCount);
      if fd.None? {
        assert !env.CanOpen(old(openCount), Needs(route) - 1);
        return Failure("can't create receiver");
      }
      var statsCollector := new StatsCollector(0);
      var rcvrSocket := new ReceiverSocket(ReceiverAddr(env, route, fd.value), senderList.value, statsCollector);
      openCount := openCount + 1;
      return Success((fd.value, rcvrSocket));
    }

    /** Opens one route, enters its receiver in the table and registers it. */
    method AddRoute(route: Route) returns (r: Result<()>)
      requires Agree() && OnlyOpened() && FreshDescriptors(env) && !epoller.closed
      modifies this`openCount, this`receivers, epoller`registered, epoller`fdCount
      ensures r.Success? <==> Opens(env, route, old(openCount))
      ensures r.Success? ==> Agree() && OnlyOpened() && openCount == old(openCount) + Needs(route)
      ensures r.Success? ==> var fd := env.Descriptor(old(openCount), Needs(route) - 1);
        && fd in receivers && RelaysFor(env, receivers[fd], route, old(openCount)) && fresh(receivers[fd])
        && receivers == old(receivers)[fd := receivers[fd]] && epoller.registered == old(epoller.registered) + [fd]
        && forall other :: other in old(receivers) ==> Apart(old(receivers)[other], receivers[fd])
    {
      NotYetRegistered(Needs(route) - 1);
      var route' := OpenRoute(route);
      if route'.Failure? {
        return Failure(route'.error);
      }
      var (fd, rcvrSocket) := route'.value;
      assert env.CanOpen(old(openCount), Needs(route) - 1);
      assert OnlyOpened();
      r := Enter(fd, rcvrSocket);
    }

    /** Descriptors still to be opened are new to epoll. */
    lemma NotYetRegistered(i: nat)
      requires OnlyOpened() && FreshDescriptors(env)
      ensures env.CanOpen(openCount, i) ==> env.Descriptor(openCount, i) !in epoller.registered
    {
    }

    /** A new descriptor is entered in the table and registered. */
    method Enter(fd: int, rcvrSocket: ReceiverSocket) returns (r: Result<()>)
      requires Agree() && OnlyOpened() && fd !in epoller.registered && Opened(fd) && !epoller.closed
      modifies this`receivers, epoller`registered, epoller`fdCount
      ensures r.Success? && Agree() && OnlyOpened()
      ensures receivers == old(receivers)[fd := rcvrSocket] && epoller.registered == old(epoller.registered) + [fd]
    {
      receivers := receivers[fd := rcvrSocket];
      r := epoller.RegisterSocket(fd);
    }

    /** The table of a proxy with the given routes open. */
    ghost predicate Routing(routes: seq<Route>)
      reads this, epoller
    {
      && Agree() && OnlyOpened() && !epoller.closed && openCount == Offset(routes, |routes|)
      && TableFor(env, receivers, epoller.registered, routes)
      && AllApart(receivers)
    }

    method AddRouteTo(ghost routes: seq<Route>, route: Route) returns (r: Result<()>)
      requires Routing(routes) && FreshDescriptors(env)
      modifies this`openCount, this`receivers, epoller`registered, epoller`fdCount
      ensures r.Success? <==> Opens(env, route, Offset(routes, |routes|))
      ensures r.Success? ==> Routing(routes + [route])
    {
      ghost var table, registered := receivers, epoller.registered;
      r := AddRoute(route);
      if r.Success? {
        ghost var fd := env.Descriptor(Offset(routes, |routes|), Needs(route) - 1);
        TableForNext(env, table, registered, routes, route, fd, receivers[fd]);
        AllApartNext(table, fd, receivers[fd]);
        OpensAtEnd(env, routes, route);
      }
    }

    /** Opens every route of one feed, in order, or throws. */
    method AddFeed(ghost routes: seq<Route>, mappedFeed: InterfaceConfig) returns (r: Result<()>)
      requires Routing(routes) && FreshDescriptors(env)
      modifies this`openCount, this`receivers, epoller`registered, epoller`fdCount
      ensures r.Success? <==> AllOpen(env, routes + RoutesOf(mappedFeed))
      ensures r.Success? ==> Routing(routes + RoutesOf(mappedFeed))
    {
      ghost var here, done := RoutesOf(mappedFeed), routes;
      assert routes + here[..0] == routes;
      for i := 0 to |mappedFeed.rcvrSenders|
        invariant done == routes + here[..i] && Routing(done)
      {
        var route := Route(mappedFeed.inputInterface, mappedFeed.outputInterface, mappedFeed.rcvrSenders[i]);
        r := AddRouteTo(done, route);
        assert routes + here[..i + 1] == done + [route];
        if r.Failure? {
          OneFails(env, done, route, here[i + 1..]);
          assert (done + [route]) + here[i + 1..] == routes + here;
          return;
        }
        done := done + [route];
      }
      assert done == routes + here;
      TableOpens(env, receivers, epoller.registered, done);
      return Success(());
    }

    /** Opens every route of the feeds, in order, or throws: exactly the routing graph of the feeds. */
    method AddReceiversFromConfig(feedsList: seq<InterfaceConfig>) returns (r: Result<()>)
      requires Routing([]) && FreshDescriptors(env)
      modifies this`openCount, this`receivers, epoller`registered, epoller`fdCount
      ensures r.Success? <==> AllOpen(env, Routes(feedsList))
      ensures r.Success? ==> Routing(Routes(feedsList)) && |epoller.registered| == RouteCount(feedsList)
      ensures r.Success? ==> forall f, i :: 0 <= f < |feedsList| && 0 <= i < |feedsList[f].rcvrSenders| ==>
        MappedAt(env, receivers, epoller.registered, feedsList, f, i)
    {
      assert feedsList[..0] == [];
      for f := 0 to |feedsList|
        invariant Routing(Routes(feedsList[..f]))
      {
        assert feedsList[..f + 1][..f] == feedsList[..f];
        r := AddFeed(Routes(feedsList[..f]), feedsList[f]);
        if r.Failure? {
          RoutesAppend(feedsList[..f + 1], feedsList[f + 1..]);
          assert feedsList == feedsList[..f + 1] + feedsList[f + 1..];
          if AllOpen(env, Routes(feedsList)) {
            PrefixOpens(env, Routes(feedsList[..f + 1]), Concatenated(feedsList[f + 1..]));
          }
          return;
        }
      }
      assert feedsList[..|feedsList|] == feedsList;
      TableOpens(env, receivers, epoller.registered, Routes(feedsList));
      RoutesCounted(feedsList);
      forall f, i | 0 <= f < |feedsList| && 0 <= i < |feedsList[f].rcvrSenders|
        ensures MappedAt(env, receivers, epoller.registered, feedsList, f, i)
      {
        OpenedAsDeclared(env, receivers, epoller.registered, feedsList, f, i);
      }
      return Success(());
    }

    /** Reads the document, opens what it declares, and makes the dispatcher for it. */
    method Start(d: Document, format: ConfigFileFormat) returns (r: Result<W.WorkDispatcher>)
      requires Routing([]) && FreshDescriptors(env)
      modifies this, epoller`registered, epoller`fdCount
      ensures r.Success? <==> format == XML && WellFormedDocument(d) && AllOpen(env, Routes(DeclaredFeeds(d)))
      ensures r.Success? ==> Routing(Routes(DeclaredFeeds(d))) && continueProcessing
      ensures r.Success? ==> r.value.Valid() && r.value.receivers == receivers && r.value.View() == Pool.New()
    {
      var configReader := new MddFeedConfig();
      var loaded := configReader.Load(d, format);
      if loaded.Failure? {
        return Failure(loaded.error);
      }
      var added := AddReceiversFromConfig(configReader.mappedFeeds);
      if added.Failure? {
        return Failure(added.error);
      }
      var workDispatcher := new W.WorkDispatcher(receivers);
      continueProcessing := true;
      return Success(workDispatcher);
    }

    method Stop(workDispatcher: W.WorkDispatcher)
      requires workDispatcher.Valid()
      modifies this`continueProcessing, epoller`closed, workDispatcher.workers
      ensures !continueProcessing && epoller.closed && workDispatcher.Valid()
      ensures forall i :: 0 <= i < |workDispatcher.workers| ==> workDispatcher.workers[i].state == TERMINATE
      ensures workDispatcher.View() == old(workDispatcher.View()).(serving := workDispatcher.View().serving)
    {
      continueProcessing := false;
      epoller.CancelWait();
      workDispatcher.WakeUpAllThreads();
    }

    /** The k-th wait, in which some workers complete, and the proxy is stopped if it is the last. */
    method WaitOnce(workDispatcher: W.WorkDispatcher, waits: seq<Wait>, k: nat)
      requires Agree() && workDispatcher.Valid() && workDispatcher.receivers == receivers
      requires k < |waits| && epoller.MayReturn(waits[k].events) && Pool.Fair(workDispatcher.View())
      requires workDispatcher.Knows(Events(waits[..k]))
      modifies this`continueProcessing, epoller`closed
      modifies workDispatcher, workDispatcher.workers, workDispatcher.pendingItems
      ensures Agree() && (continueProcessing <==> old(continueProcessing) && k + 1 < |waits|)
      ensures continueProcessing ==> epoller.closed == old(epoller.closed)
      ensures workDispatcher.Valid() && old(workDispatcher.workers) <= workDispatcher.workers
      ensures forall i ::
        |old(workDispatcher.workers)| <= i < |workDispatcher.workers| ==> fresh(workDispatcher.workers[i])
      ensures Pool.Fair(workDispatcher.View()) && workDispatcher.Knows(Events(waits[..k + 1]))
      ensures forall before :: old(workDispatcher.dispatched) == before + workDispatcher.Found(Events(waits[..k])) ==>
        workDispatcher.dispatched == before + workDispatcher.Found(Events(waits[..k + 1]))
    {
      CompleteAndDispatch(workDispatcher, waits[k]);
      EventsNext(waits, k);
      workDispatcher.FoundAppend(Events(waits[..k]), waits[k].events);
      assert workDispatcher.Found(Events(waits[..k + 1])) ==
        workDispatcher.Found(Events(waits[..k])) + workDispatcher.Found(waits[k].events);
      if k + 1 == |waits| {
        Stop(workDispatcher);
      }
    }

    /** Some workers complete, and the events of one wait are dispatched. */
    method CompleteAndDispatch(workDispatcher: W.WorkDispatcher, wait: Wait)
      requires Agree() && workDispatcher.Valid() && workDispatcher.receivers == receivers
      requires epoller.MayReturn(wait.events) && Pool.Fair(workDispatcher.View())
      modifies workDispatcher, workDispatcher.workers, workDispatcher.pendingItems
      ensures workDispatcher.Valid() && old(workDispatcher.workers) <= workDispatcher.workers
      ensures forall i ::
        |old(workDispatcher.workers)| <= i < |workDispatcher.workers| ==> fresh(workDispatcher.workers[i])
      ensures Pool.Fair(workDispatcher.View()) && workDispatcher.Knows(wait.events)
      ensures workDispatcher.dispatched == old(workDispatcher.dispatched) + workDispatcher.Found(wait.events)
    {
      Pool.CompletingKeepsFair(workDispatcher.View(), wait.completing);
      workDispatcher.SomeComplete(wait.completing);
      ghost var before := workDispatcher.View();
      var _ := epoller.WaitForData(workDispatcher, wait.events);
      W.DispatchesKeepFair(before, workDispatcher.Found(wait.events));
    }

    /** Waits until stopped, which happens during the last of the given waits, or has happened before: then it waits
        once all the same, in vain. It joins the workers. Every event of every wait is dispatched, in order; none is of
        an unknown receiver, so that nothing throws. All sockets dispatched have been started, in order, but for those
        still pending. */
    method WaitForExit(workDispatcher: W.WorkDispatcher, waits: seq<Wait>) returns (joined: seq<nat>, ghost n: nat)
      requires Agree() && workDispatcher.Valid() && workDispatcher.receivers == receivers
      requires waits != [] && forall k :: 0 <= k < |waits| ==> epoller.MayReturn(waits[k].events)
      requires Pool.Fair(workDispatcher.View())
      modifies this`continueProcessing, epoller`closed
      modifies workDispatcher, workDispatcher.workers, workDispatcher.pendingItems
      ensures !continueProcessing && epoller.closed && workDispatcher.Valid()
      ensures n == (if old(continueProcessing) then |waits| else 1)
      ensures !old(continueProcessing) ==> Events(waits[..n]) == []
      ensures workDispatcher.Knows(Events(waits[..n]))
      ensures workDispatcher.dispatched == old(workDispatcher.dispatched) + workDispatcher.Found(Events(waits[..n]))
      ensures workDispatcher.started + workDispatcher.pendingItems.pendingList == workDispatcher.dispatched
      ensures joined == Pool.Range(0, workDispatcher.totalWorkerCount)
    {
      var k, again := 0, true;
      n := 0;
      assert waits[..0] == [];
      while again
        invariant n == k <= |waits| && (again ==> k < |waits|) && Agree()
        invariant continueProcessing <==> old(continueProcessing) && again
        invariant again ==> (old(continueProcessing) || k == 0) && epoller.closed == old(epoller.closed)
        invariant !again ==> k == if old(continueProcessing) then |waits| else 1
        invariant workDispatcher.Valid() && old(workDispatcher.workers) <= workDispatcher.workers
        invariant forall i ::
          |old(workDispatcher.workers)| <= i < |workDispatcher.workers| ==> fresh(workDispatcher.workers[i])
        invariant Pool.Fair(workDispatcher.View()) && workDispatcher.Knows(Events(waits[..k]))
        invariant workDispatcher.dispatched == old(workDispatcher.dispatched) + workDispatcher.Found(Events(waits[..k]))
        decreases |waits| - k
      {
        WaitOnce(workDispatcher, waits, k);
        k, n := k + 1, n + 1;
        again := continueProcessing;
      }
      if !old(continueProcessing) { EventsNext(waits, 0); }
      joined := workDispatcher.JoinThreads();
    }
  }

  /** The slots whose workers complete during a wait, if they are in service, and what the wait returns. */
  datatype Wait = Wait(completing: seq<nat>, events: seq<int>)

  /** The events of some waits, in order. */
  function Events(waits: seq<Wait>): seq<int> {
    if waits == [] then [] else Events(waits[..|waits| - 1]) + waits[|waits| - 1].events
  }

  lemma EventsNext(waits: seq<Wait>, k: nat)
    requires k < |waits|
    ensures Events(waits[..k + 1]) == Events(waits[..k]) + waits[k].events
  {
    assert waits[..k + 1][..k] == waits[..k];
  }

  function Concatenated(feeds: seq<InterfaceConfig>): seq<Route> {
    if feeds == [] then [] else RoutesOf(feeds[0]) + Concatenated(feeds[1..])
  }

  lemma {:induction false} RoutesAppend(a: seq<InterfaceConfig>, b: seq<InterfaceConfig>)
    ensures Routes(a + b) == Routes(a) + Concatenated(b)
    decreases |b|
  {
    if b == [] {
      assert a + b == a;
    } else {
      assert a + b == (a + [b[0]]) + b[1..];
      assert (a + [b[0]])[..|a|] == a;
      RoutesAppend(a + [b[0]], b[1..]);
      assert Routes(a) + RoutesOf(b[0]) + Concatenated(b[1..]) == Routes(a) + (RoutesOf(b[0]) + Concatenated(b[1..]));
    }
  }
}
