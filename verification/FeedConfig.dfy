/**
 The configuration: receivers and senders are declared under an id, the first declaration of an id counting, and
 each Map lists receivers by id, each with the ids of the senders that its data goes to.

 The document arrives as a parsed tree. A node whose attributes are missing or do not parse has None for them:
 reading it throws.
 */
module FeedConfig {
  import opened Common
  import opened Sockets

  datatype InputAttributes =
    InputAttributes(name: string, id: nat, ip: string, port: nat, kind: string, protocol: string)
  datatype OutputAttributes =
    OutputAttributes(id: nat, ip: string, port: nat, isLoopback: Option<bool>, kind: string, protocol: string)
  datatype Interfaces = Interfaces(input: string, output: string)

  /** A node of the tree with its tag. */
  datatype Node<T> = Node(tag: string, attributes: Option<T>)
  datatype ReceiverNode = ReceiverNode(tag: string, id: Option<nat>, children: seq<Node<nat>>)
  datatype MapNode = MapNode(tag: string, attributes: Option<Interfaces>, children: seq<ReceiverNode>)

  datatype Document = Document(
    receivers: Option<seq<Node<InputAttributes>>>,
    senders: Option<seq<Node<OutputAttributes>>>,
    mapping: Option<seq<MapNode>>)

  datatype ConfigFileFormat = XML | INI | INFO | JSON

  datatype InputAddress = InputAddress(
    id: nat, feedName: string, address: string, port: nat, broadcastType: Broadcast, protocol: Protocol)
  datatype OutputAddress = OutputAddress(
    id: nat, address: string, port: nat, isLoopBack: bool, broadcastType: Broadcast, protocol: Protocol)

  /** inputAddress is None where the program leaves the pointer uninitialised. */
  datatype ReceiverSenders = ReceiverSenders(inputAddress: Option<InputAddress>, outputAddresses: seq<OutputAddress>)
  datatype InterfaceConfig =
    InterfaceConfig(inputInterface: string, outputInterface: string, rcvrSenders: seq<ReceiverSenders>)

  function BroadcastOf(kind: string): Broadcast { if kind == "Unicast" then Unicast else Multicast }

  function ProtocolOf(protocol: string): Protocol { if protocol == "UDP" then UDP else TCP }

  function InputOf(a: InputAttributes): InputAddress {
    InputAddress(a.id, a.name, a.ip, a.port, BroadcastOf(a.kind), ProtocolOf(a.protocol))
  }

  function OutputOf(a: OutputAttributes): OutputAddress {
    OutputAddress(a.id, a.ip, a.port, a.isLoopback == Some(true), BroadcastOf(a.kind), ProtocolOf(a.protocol))
  }

  // ---------------------------------------------------------------- lists read in document order

  /** What f makes of the elements of a list, where it makes anything of them. */
  function Collect<A, B>(xs: seq<A>, f: A -> Option<B>): seq<B> {
    if xs == [] then []
    else
      var last := f(xs[|xs| - 1]);
      Collect(xs[..|xs| - 1], f) + if last.Some? then [last.value] else []
  }

  /** The places of the elements that f makes something of. */
  function Places<A, B>(xs: seq<A>, f: A -> Option<B>): set<nat> {
    set i: nat | i < |xs| && f(xs[i]).Some?
  }

  lemma PlacesOfInit<A, B>(xs: seq<A>, f: A -> Option<B>)
    requires xs != []
    ensures var n := |xs| - 1;
      && n !in Places(xs[..n], f)
      && Places(xs, f) == Places(xs[..n], f) + if f(xs[n]).Some? then {n} else {}
  {
  }

  /** As many things are collected as there are such places. */
  lemma {:induction false} CollectLength<A, B>(xs: seq<A>, f: A -> Option<B>)
    ensures |Collect(xs, f)| == |Places(xs, f)|
  {
    if xs != [] {
      CollectLength(xs[..|xs| - 1], f);
      PlacesOfInit(xs, f);
    }
  }

  /** What is collected from a place stands behind what is collected from the places before it. */
  lemma {:induction false} CollectAt<A, B>(xs: seq<A>, f: A -> Option<B>, i: nat)
    requires i < |xs| && f(xs[i]).Some?
    ensures var k := |Places(xs[..i], f)|; k < |Collect(xs, f)| && Collect(xs, f)[k] == f(xs[i]).value
  {
    var n := |xs| - 1;
    if i < n {
      assert xs[..n][..i] == xs[..i];
      CollectAt(xs[..n], f, i);
    } else {
      CollectLength(xs[..n], f);
    }
  }

  lemma CollectLast<A, B>(xs: seq<A>, f: A -> Option<B>)
    requires xs != []
    ensures var n := |xs| - 1;
      Collect(xs, f) == if f(xs[n]).Some? then Collect(xs[..n], f) + [f(xs[n]).value] else Collect(xs[..n], f)
  {
  }

  lemma {:induction false} CollectSame<A, B>(xs: seq<A>, f: A -> Option<B>, g: A -> Option<B>)
    requires forall i :: 0 <= i < |xs| ==> f(xs[i]) == g(xs[i])
    ensures Collect(xs, f) == Collect(xs, g)
  {
    if xs != [] { CollectSame(xs[..|xs| - 1], f, g); }
  }

  // ---------------------------------------------------------------- the first declaration of an id

  /** What is first declared under an id, in a list of declarations. */
  function First<T>(decls: seq<(nat, T)>, id: nat): Option<T> {
    if decls == [] then None
    else if decls[0].0 == id then Some(decls[0].1)
    else First(decls[1..], id)
  }

  function Lookup<T>(table: map<nat, T>, id: nat): Option<T> {
    if id in table then Some(table[id]) else None
  }

  lemma {:induction false} FirstAppend<T>(decls: seq<(nat, T)>, decl: (nat, T), id: nat)
    ensures First(decls + [decl], id) ==
      if First(decls, id).Some? then First(decls, id) else if decl.0 == id then Some(decl.1) else None
  {
    if decls == [] {
      assert [decl][1..] == [];
    } else {
      assert (decls + [decl])[1..] == decls[1..] + [decl];
      FirstAppend(decls[1..], decl, id);
    }
  }

  /** Of the nodes of a document, the first that declares an id is the one that counts, */
  lemma {:induction false} FirstDeclarationCounts<N, T>(nodes: seq<N>, decl: N -> Option<(nat, T)>, k: nat)
    requires k < |nodes| && decl(nodes[k]).Some?
    requires forall j :: 0 <= j < k && decl(nodes[j]).Some? ==> decl(nodes[j]).value.0 != decl(nodes[k]).value.0
    ensures First(Collect(nodes, decl), decl(nodes[k]).value.0) == Some(decl(nodes[k]).value.1)
  {
    var n, id := |nodes| - 1, decl(nodes[k]).value.0;
    CollectLast(nodes, decl);
    if decl(nodes[n]).Some? { FirstAppend(Collect(nodes[..n], decl), decl(nodes[n]).value, id); }
    if k < n {
      FirstDeclarationCounts(nodes[..n], decl, k);
    } else {
      UndeclaredIsNone(nodes[..n], decl, id);
    }
  }

  /** and an id stands for nothing exactly when no node declares it. */
  lemma {:induction false} UndeclaredIsNone<N, T>(nodes: seq<N>, decl: N -> Option<(nat, T)>, id: nat)
    ensures First(Collect(nodes, decl), id) == None <==>
      forall k :: 0 <= k < |nodes| && decl(nodes[k]).Some? ==> decl(nodes[k]).value.0 != id
  {
    if nodes != [] {
      var n := |nodes| - 1;
      UndeclaredIsNone(nodes[..n], decl, id);
      CollectLast(nodes, decl);
      if decl(nodes[n]).Some? { FirstAppend(Collect(nodes[..n], decl), decl(nodes[n]).value, id); }
      assert forall k :: 0 <= k < n ==> nodes[k] == nodes[..n][k];
    }
  }

  // ---------------------------------------------------------------- what a document declares

  function InputIn(node: Node<InputAttributes>): Option<(nat, InputAddress)> {
    if node.tag == "Receiver" && node.attributes.Some?
    then Some((node.attributes.value.id, InputOf(node.attributes.value))) else None
  }

  function OutputIn(node: Node<OutputAttributes>): Option<(nat, OutputAddress)> {
    if node.tag == "Sender" && node.attributes.Some?
    then Some((node.attributes.value.id, OutputOf(node.attributes.value))) else None
  }

  /** What the ids of receivers and senders stand for. */
  type Inputs = nat -> Option<InputAddress>
  type Outputs = nat -> Option<OutputAddress>

  /** The sender that a node names; a node with an unknown id names nobody. */
  function SenderIn(outputs: Outputs): Node<nat> -> Option<OutputAddress> {
    (node: Node<nat>) =>
      if node.tag == "MappedSender" && node.attributes.Some? then outputs(node.attributes.value) else None
  }

  function RouteIn(inputs: Inputs, outputs: Outputs): ReceiverNode -> Option<ReceiverSenders> {
    (node: ReceiverNode) =>
      if node.tag == "MappedReceiver" then
        Some(ReceiverSenders(if node.id.Some? then inputs(node.id.value) else None,
                             Collect(node.children, SenderIn(outputs))))
      else None
  }

  function FeedIn(inputs: Inputs, outputs: Outputs): MapNode -> Option<InterfaceConfig> {
    (node: MapNode) =>
      if node.tag == "Map" && node.attributes.Some? then
        Some(InterfaceConfig(node.attributes.value.input, node.attributes.value.output,
                             Collect(node.children, RouteIn(inputs, outputs))))
      else None
  }

  predicate WellFormed<T>(nodes: seq<Node<T>>, tag: string) {
    forall i :: 0 <= i < |nodes| && nodes[i].tag == tag ==> nodes[i].attributes.Some?
  }

  predicate WellFormedReceiver(node: ReceiverNode) {
    node.tag == "MappedReceiver" ==> node.id.Some? && WellFormed(node.children, "MappedSender")
  }

  predicate WellFormedMap(node: MapNode) {
    node.tag == "Map" ==>
      node.attributes.Some? && forall i :: 0 <= i < |node.children| ==> WellFormedReceiver(node.children[i])
  }

  predicate WellFormedMapping(nodes: seq<MapNode>) {
    forall i :: 0 <= i < |nodes| ==> WellFormedMap(nodes[i])
  }

  /** Whether reading the document throws nowhere. */
  predicate WellFormedDocument(d: Document) {
    && d.receivers.Some? && WellFormed(d.receivers.value, "Receiver")
    && d.senders.Some? && WellFormed(d.senders.value, "Sender")
    && d.mapping.Some? && WellFormedMapping(d.mapping.value)
  }

  function DeclaredInput(d: Document): Inputs
    requires WellFormedDocument(d)
  {
    (id: nat) => First(Collect(d.receivers.value, InputIn), id)
  }

  function DeclaredOutput(d: Document): Outputs
    requires WellFormedDocument(d)
  {
    (id: nat) => First(Collect(d.senders.value, OutputIn), id)
  }

  /** The routing graph that the document declares. */
  function DeclaredFeeds(d: Document): seq<InterfaceConfig>
    requires WellFormedDocument(d)
  {
    Collect(d.mapping.value, FeedIn(DeclaredInput(d), DeclaredOutput(d)))
  }

  // ---------------------------------------------------------------- the routing graph, node by node

  /** The places of the nodes with a tag among the first n. */
  function MapsBefore(nodes: seq<MapNode>, n: nat): set<nat> {
    set i: nat | i < n && i < |nodes| && nodes[i].tag == "Map"
  }

  function ReceiversBefore(nodes: seq<ReceiverNode>, n: nat): set<nat> {
    set i: nat | i < n && i < |nodes| && nodes[i].tag == "MappedReceiver"
  }

  /** The MappedSender nodes among the first n that name a declared sender. */
  function SendersBefore(nodes: seq<Node<nat>>, n: nat, outputs: Outputs): set<nat> {
    set i: nat |
      && i < n && i < |nodes| && nodes[i].tag == "MappedSender" && nodes[i].attributes.Some?
      && outputs(nodes[i].attributes.value).Some?
  }

  /** One feed for each Map, in document order, with the interfaces that the Map gives. */
  lemma FeedOfMap(d: Document, m: nat)
    requires WellFormedDocument(d) && m < |d.mapping.value| && d.mapping.value[m].tag == "Map"
    ensures var nodes := d.mapping.value; var k := |MapsBefore(nodes, m)|;
      && |DeclaredFeeds(d)| == |MapsBefore(nodes, |nodes|)| && k < |DeclaredFeeds(d)|
      && DeclaredFeeds(d)[k].inputInterface == nodes[m].attributes.value.input
      && DeclaredFeeds(d)[k].outputInterface == nodes[m].attributes.value.output
      && DeclaredFeeds(d)[k].rcvrSenders == Collect(nodes[m].children, RouteIn(DeclaredInput(d), DeclaredOutput(d)))
  {
    var nodes, f := d.mapping.value, FeedIn(DeclaredInput(d), DeclaredOutput(d));
    assert forall i :: 0 <= i < |nodes| ==> WellFormedMap(nodes[i]);
    assert Places(nodes, f) == MapsBefore(nodes, |nodes|) && Places(nodes[..m], f) == MapsBefore(nodes, m);
    CollectLength(nodes, f);
    CollectAt(nodes, f, m);
  }

  /** In the feed of a Map, one route for each MappedReceiver, in document order, from the input first declared under
      its id. */
  lemma RouteOfReceiver(nodes: seq<ReceiverNode>, inputs: Inputs, outputs: Outputs, r: nat)
    requires r < |nodes| && nodes[r].tag == "MappedReceiver" && nodes[r].id.Some?
    ensures var routes := Collect(nodes, RouteIn(inputs, outputs)); var k := |ReceiversBefore(nodes, r)|;
      && |routes| == |ReceiversBefore(nodes, |nodes|)| && k < |routes|
      && routes[k].inputAddress == inputs(nodes[r].id.value)
      && routes[k].outputAddresses == Collect(nodes[r].children, SenderIn(outputs))
  {
    var f := RouteIn(inputs, outputs);
    assert Places(nodes, f) == ReceiversBefore(nodes, |nodes|) && Places(nodes[..r], f) == ReceiversBefore(nodes, r);
    CollectLength(nodes, f);
    CollectAt(nodes, f, r);
  }

  /** In a route, one output for each MappedSender that names a declared sender, in document order; the others leave
      no gap. */
  lemma OutputOfSender(nodes: seq<Node<nat>>, outputs: Outputs, s: nat)
    requires s < |nodes| && s in SendersBefore(nodes, |nodes|, outputs)
    ensures var addresses := Collect(nodes, SenderIn(outputs)); var k := |SendersBefore(nodes, s, outputs)|;
      && |addresses| == |SendersBefore(nodes, |nodes|, outputs)| && k < |addresses|
      && Some(addresses[k]) == outputs(nodes[s].attributes.value)
  {
    var f := SenderIn(outputs);
    assert Places(nodes, f) == SendersBefore(nodes, |nodes|, outputs);
    assert Places(nodes[..s], f) == SendersBefore(nodes, s, outputs);
    CollectLength(nodes, f);
    CollectAt(nodes, f, s);
  }

  // ---------------------------------------------------------------- attribute by attribute

  /** Node k is a Receiver with this id. */
  predicate DeclaresReceiver(nodes: seq<Node<InputAttributes>>, k: nat, id: nat) {
    k < |nodes| && nodes[k].tag == "Receiver" && nodes[k].attributes.Some? && nodes[k].attributes.value.id == id
  }

  /** Node k is the first Receiver with this id. */
  predicate FirstReceiver(nodes: seq<Node<InputAttributes>>, k: nat, id: nat) {
    DeclaresReceiver(nodes, k, id) && forall j :: 0 <= j < k ==> !DeclaresReceiver(nodes, j, id)
  }

  predicate DeclaresSender(nodes: seq<Node<OutputAttributes>>, k: nat, id: nat) {
    k < |nodes| && nodes[k].tag == "Sender" && nodes[k].attributes.Some? && nodes[k].attributes.value.id == id
  }

  predicate FirstSender(nodes: seq<Node<OutputAttributes>>, k: nat, id: nat) {
    DeclaresSender(nodes, k, id) && forall j :: 0 <= j < k ==> !DeclaresSender(nodes, j, id)
  }

  /** Every attribute of a Receiver has its place in the entry. */
  predicate EntryOf(entry: InputAddress, a: InputAttributes) {
    && entry.id == a.id && entry.feedName == a.name && entry.address == a.ip && entry.port == a.port
    && (entry.broadcastType == Unicast <==> a.kind == "Unicast") && (entry.protocol == UDP <==> a.protocol == "UDP")
  }

  predicate OutputEntryOf(entry: OutputAddress, a: OutputAttributes) {
    && entry.id == a.id && entry.address == a.ip && entry.port == a.port
    && (entry.isLoopBack <==> a.isLoopback.Some? && a.isLoopback.value)
    && (entry.broadcastType == Unicast <==> a.kind == "Unicast") && (entry.protocol == UDP <==> a.protocol == "UDP")
  }

  lemma ReceiverEntry(nodes: seq<Node<InputAttributes>>, k: nat, id: nat)
    requires FirstReceiver(nodes, k, id)
    ensures var entry := First(Collect(nodes, InputIn), id);
      entry.Some? && EntryOf(entry.value, nodes[k].attributes.value)
  {
    forall j | 0 <= j < k && InputIn(nodes[j]).Some?
      ensures InputIn(nodes[j]).value.0 != id
    {
      assert !DeclaresReceiver(nodes, j, id);
    }
    FirstDeclarationCounts(nodes, InputIn, k);
  }

  lemma SenderEntry(nodes: seq<Node<OutputAttributes>>, k: nat, id: nat)
    requires FirstSender(nodes, k, id)
    ensures var entry := First(Collect(nodes, OutputIn), id);
      entry.Some? && OutputEntryOf(entry.value, nodes[k].attributes.value)
  {
    forall j | 0 <= j < k && OutputIn(nodes[j]).Some?
      ensures OutputIn(nodes[j]).value.0 != id
    {
      assert !DeclaresSender(nodes, j, id);
    }
    FirstDeclarationCounts(nodes, OutputIn, k);
  }

  lemma NoReceiverEntry(nodes: seq<Node<InputAttributes>>, id: nat)
    ensures First(Collect(nodes, InputIn), id).Some? <==> exists k :: DeclaresReceiver(nodes, k, id)
  {
    UndeclaredIsNone(nodes, InputIn, id);
    if k :| 0 <= k < |nodes| && InputIn(nodes[k]).Some? && InputIn(nodes[k]).value.0 == id {
      assert DeclaresReceiver(nodes, k, id);
    }
  }

  lemma NoSenderEntry(nodes: seq<Node<OutputAttributes>>, id: nat)
    ensures First(Collect(nodes, OutputIn), id).Some? <==> exists k :: DeclaresSender(nodes, k, id)
  {
    UndeclaredIsNone(nodes, OutputIn, id);
    if k :| 0 <= k < |nodes| && OutputIn(nodes[k]).Some? && OutputIn(nodes[k]).value.0 == id {
      assert DeclaresSender(nodes, k, id);
    }
  }

  /** From the document to the feeds: a MappedReceiver's place, and in it the attributes of the first Receiver with its
      id. */
  lemma RoutedReceiver(d: Document, m: nat, r: nat, k: nat)
    requires WellFormedDocument(d) && m < |d.mapping.value| && d.mapping.value[m].tag == "Map"
    requires r < |d.mapping.value[m].children| && d.mapping.value[m].children[r].tag == "MappedReceiver"
    requires d.mapping.value[m].children[r].id.Some?
    requires FirstReceiver(d.receivers.value, k, d.mapping.value[m].children[r].id.value)
    ensures var f := |MapsBefore(d.mapping.value, m)|; var i := |ReceiversBefore(d.mapping.value[m].children, r)|;
      && f < |DeclaredFeeds(d)| && i < |DeclaredFeeds(d)[f].rcvrSenders|
      && DeclaredFeeds(d)[f].rcvrSenders[i].inputAddress.Some?
      && EntryOf(DeclaredFeeds(d)[f].rcvrSenders[i].inputAddress.value, d.receivers.value[k].attributes.value)
  {
    var children := d.mapping.value[m].children;
    FeedOfMap(d, m);
    RouteOfReceiver(children, DeclaredInput(d), DeclaredOutput(d), r);
    ReceiverEntry(d.receivers.value, k, children[r].id.value);
  }

  /** The same of a MappedSender: its place among those that name a declared sender, and the attributes of the first
      Sender with its id. */
  lemma RoutedSender(d: Document, m: nat, r: nat, s: nat, k: nat)
    requires WellFormedDocument(d) && m < |d.mapping.value| && d.mapping.value[m].tag == "Map"
    requires r < |d.mapping.value[m].children| && d.mapping.value[m].children[r].tag == "MappedReceiver"
    requires d.mapping.value[m].children[r].id.Some?
    requires var nodes := d.mapping.value[m].children[r].children;
      && s < |nodes| && nodes[s].tag == "MappedSender" && nodes[s].attributes.Some?
      && FirstSender(d.senders.value, k, nodes[s].attributes.value)
    ensures var f := |MapsBefore(d.mapping.value, m)|; var i := |ReceiversBefore(d.mapping.value[m].children, r)|;
      var j := |SendersBefore(d.mapping.value[m].children[r].children, s, DeclaredOutput(d))|;
      && f < |DeclaredFeeds(d)| && i < |DeclaredFeeds(d)[f].rcvrSenders|
      && j < |DeclaredFeeds(d)[f].rcvrSenders[i].outputAddresses|
      && OutputEntryOf(DeclaredFeeds(d)[f].rcvrSenders[i].outputAddresses[j], d.senders.value[k].attributes.value)
  {
    var children := d.mapping.value[m].children;
    var nodes := children[r].children;
    FeedOfMap(d, m);
    RouteOfReceiver(children, DeclaredInput(d), DeclaredOutput(d), r);
    SenderEntry(d.senders.value, k, nodes[s].attributes.value);
    OutputOfSender(nodes, DeclaredOutput(d), s);
  }

  /** The document can be read exactly when its three sections are there, and every node that is looked at has its
      attributes. */
  lemma WellFormedExactlyWhen(d: Document)
    ensures WellFormedDocument(d) <==>
      && d.receivers.Some? && d.senders.Some? && d.mapping.Some?
      && (forall node :: node in d.receivers.value && node.tag == "Receiver" ==> node.attributes.Some?)
      && (forall node :: node in d.senders.value && node.tag == "Sender" ==> node.attributes.Some?)
      && (forall map' :: map' in d.mapping.value && map'.tag == "Map" ==> map'.attributes.Some?)
      && (forall map' :: map' in d.mapping.value && map'.tag == "Map" ==>
           forall node :: node in map'.children && node.tag == "MappedReceiver" ==>
             && node.id.Some?
             && forall leaf :: leaf in node.children && leaf.tag == "MappedSender" ==> leaf.attributes.Some?)
  {
  }

  // ---------------------------------------------------------------- the reader

  class MddFeedConfig {
    var receivers: map<nat, InputAddress>
    var senders: map<nat, OutputAddress>
    var mappedFeeds: seq<InterfaceConfig>

    constructor ()
      ensures receivers == map[] && senders == map[] && mappedFeeds == []
    {
      receivers, senders, mappedFeeds := map[], map[], [];
    }

    method LoadReceivers(tree: Option<seq<Node<InputAttributes>>>) returns (r: Result<()>)
      requires receivers == map[]
      modifies this`receivers
      ensures r.Success? <==> tree.Some? && WellFormed(tree.value, "Receiver")
      ensures r.Success? ==> forall id :: Lookup(receivers, id) == First(Collect(tree.value, InputIn), id)
      ensures r.Success? ==> forall id :: id in receivers <==> exists k :: DeclaresReceiver(tree.value, k, id)
      ensures r.Success? ==> forall k: nat, id: nat :: FirstReceiver(tree.value, k, id) ==>
        id in receivers && EntryOf(receivers[id], tree.value[k].attributes.value)
    {
      if tree.None? {
        return Failure("No such node (Receivers)");
      }
      var nodes := tree.value;
      assert nodes[..0] == [];
      for i := 0 to |nodes|
        invariant WellFormed(nodes[..i], "Receiver")
        invariant forall id :: Lookup(receivers, id) == First(Collect(nodes[..i], InputIn), id)
      {
        assert nodes[..i + 1][..i] == nodes[..i];
        if nodes[i].tag == "Receiver" {
          if nodes[i].attributes.None? {
            return Failure("No such node (<xmlattr>)");
          }
          var inputAddr := InputOf(nodes[i].attributes.value);
          ghost var before := receivers;
          if inputAddr.id !in receivers {
            receivers := receivers[inputAddr.id := inputAddr];
          }
          forall id
            ensures Lookup(receivers, id) == First(Collect(nodes[..i + 1], InputIn), id)
          {
            assert Lookup(before, id) == First(Collect(nodes[..i], InputIn), id);
            assert Collect(nodes[..i + 1], InputIn) == Collect(nodes[..i], InputIn) + [(inputAddr.id, inputAddr)];
            FirstAppend(Collect(nodes[..i], InputIn), (inputAddr.id, inputAddr), id);
          }
        } else {
          assert Collect(nodes[..i + 1], InputIn) == Collect(nodes[..i], InputIn);
        }
      }
      assert nodes[..|nodes|] == nodes;
      forall id
        ensures id in receivers <==> exists k :: DeclaresReceiver(nodes, k, id)
      {
        assert Lookup(receivers, id) == First(Collect(nodes, InputIn), id);
        NoReceiverEntry(nodes, id);
      }
      forall k: nat, id: nat | FirstReceiver(nodes, k, id)
        ensures id in receivers && EntryOf(receivers[id], nodes[k].attributes.value)
      {
        assert Lookup(receivers, id) == First(Collect(nodes, InputIn), id);
        ReceiverEntry(nodes, k, id);
      }
      return Success(());
    }

    method LoadSenders(tree: Option<seq<Node<OutputAttributes>>>) returns (r: Result<()>)
      requires senders == map[]
      modifies this`senders
      ensures r.Success? <==> tree.Some? && WellFormed(tree.value, "Sender")
      ensures r.Success? ==> forall id :: Lookup(senders, id) == First(Collect(tree.value, OutputIn), id)
      ensures r.Success? ==> forall id :: id in senders <==> exists k :: DeclaresSender(tree.value, k, id)
      ensures r.Success? ==> forall k: nat, id: nat :: FirstSender(tree.value, k, id) ==>
        id in senders && OutputEntryOf(senders[id], tree.value[k].attributes.value)
    {
      if tree.None? {
        return Failure("No such node (Senders)");
      }
      var nodes := tree.value;
      assert nodes[..0] == [];
      for i := 0 to |nodes|
        invariant WellFormed(nodes[..i], "Sender")
        invariant forall id :: Lookup(senders, id) == First(Collect(nodes[..i], OutputIn), id)
      {
        assert nodes[..i + 1][..i] == nodes[..i];
        if nodes[i].tag == "Sender" {
          if nodes[i].attributes.None? {
            return Failure("No such node (<xmlattr>)");
          }
          var outputAddr := OutputOf(nodes[i].attributes.value);
          ghost var before := senders;
          if outputAddr.id !in senders {
            senders := senders[outputAddr.id := outputAddr];
          }
          forall id
            ensures Lookup(senders, id) == First(Collect(nodes[..i + 1], OutputIn), id)
          {
            assert Lookup(before, id) == First(Collect(nodes[..i], OutputIn), id);
            assert Collect(nodes[..i + 1], OutputIn) == Collect(nodes[..i], OutputIn) + [(outputAddr.id, outputAddr)];
            FirstAppend(Collect(nodes[..i], OutputIn), (outputAddr.id, outputAddr), id);
          }
        } else {
          assert Collect(nodes[..i + 1], OutputIn) == Collect(nodes[..i], OutputIn);
        }
      }
      assert nodes[..|nodes|] == nodes;
      forall id
        ensures id in senders <==> exists k :: DeclaresSender(nodes, k, id)
      {
        assert Lookup(senders, id) == First(Collect(nodes, OutputIn), id);
        NoSenderEntry(nodes, id);
      }
      forall k: nat, id: nat | FirstSender(nodes, k, id)
        ensures id in senders && OutputEntryOf(senders[id], nodes[k].attributes.value)
      {
        assert Lookup(senders, id) == First(Collect(nodes, OutputIn), id);
        SenderEntry(nodes, k, id);
      }
      return Success(());
    }

    ghost function InputTable(): Inputs
      reads this
    {
      var table := receivers; (id: nat) => Lookup(table, id)
    }

    ghost function OutputTable(): Outputs
      reads this
    {
      var table := senders; (id: nat) => Lookup(table, id)
    }

    /** The senders mapped to one receiver. */
    method LoadMappedSenders(nodes: seq<Node<nat>>) returns (r: Result<seq<OutputAddress>>)
      ensures r.Success? <==> WellFormed(nodes, "MappedSender")
      ensures r.Success? ==> r.value == Collect(nodes, SenderIn(OutputTable()))
    {
      var outputAddresses := [];
      assert nodes[..0] == [];
      for i := 0 to |nodes|
        invariant WellFormed(nodes[..i], "MappedSender")
        invariant outputAddresses == Collect(nodes[..i], SenderIn(OutputTable()))
      {
        assert nodes[..i + 1][..i] == nodes[..i];
        if nodes[i].tag == "MappedSender" {
          if nodes[i].attributes.None? {
            return Failure("No such node (<xmlattr>.id)");
          }
          var senderId := nodes[i].attributes.value;
          if senderId in senders {
            outputAddresses := outputAddresses + [senders[senderId]];
          }
        }
      }
      assert nodes[..|nodes|] == nodes;
      return Success(outputAddresses);
    }

    /** The receivers of one Map. */
    method LoadMappedReceivers(nodes: seq<ReceiverNode>) returns (r: Result<seq<ReceiverSenders>>)
      ensures r.Success? <==> forall i :: 0 <= i < |nodes| ==> WellFormedReceiver(nodes[i])
      ensures r.Success? ==> r.value == Collect(nodes, RouteIn(InputTable(), OutputTable()))
    {
      var rcvrSenders := [];
      assert nodes[..0] == [];
      for i := 0 to |nodes|
        invariant forall j :: 0 <= j < i ==> WellFormedReceiver(nodes[j])
        invariant rcvrSenders == Collect(nodes[..i], RouteIn(InputTable(), OutputTable()))
      {
        assert nodes[..i + 1][..i] == nodes[..i];
        if nodes[i].tag == "MappedReceiver" {
          if nodes[i].id.None? {
            return Failure("No such node (<xmlattr>.id)");
          }
          var inputAddress := if nodes[i].id.value in receivers then Some(receivers[nodes[i].id.value]) else None;
          var outputs := LoadMappedSenders(nodes[i].children);
          if outputs.Failure? {
            return Failure(outputs.error);
          }
          rcvrSenders := rcvrSenders + [ReceiverSenders(inputAddress, outputs.value)];
        }
      }
      assert nodes[..|nodes|] == nodes;
      return Success(rcvrSenders);
    }

    method LoadMappedFeeds(tree: Option<seq<MapNode>>) returns (r: Result<()>)
      requires mappedFeeds == []
      modifies this`mappedFeeds
      ensures r.Success? <==> tree.Some? && WellFormedMapping(tree.value)
      ensures r.Success? ==> mappedFeeds == Collect(tree.value, FeedIn(InputTable(), OutputTable()))
    {
      if tree.None? {
        return Failure("No such node (Mapping)");
      }
      var nodes := tree.value;
      assert nodes[..0] == [];
      for i := 0 to |nodes|
        invariant forall j :: 0 <= j < i ==> WellFormedMap(nodes[j])
        invariant mappedFeeds == Collect(nodes[..i], FeedIn(InputTable(), OutputTable()))
      {
        assert nodes[..i + 1][..i] == nodes[..i];
        if nodes[i].tag == "Map" {
          if nodes[i].attributes.None? {
            return Failure("No such node (<xmlattr>)");
          }
          var rcvrSenders := LoadMappedReceivers(nodes[i].children);
          if rcvrSenders.Failure? {
            return Failure(rcvrSenders.error);
          }
          var interfaces := nodes[i].attributes.value;
          mappedFeeds := mappedFeeds + [InterfaceConfig(interfaces.input, interfaces.output, rcvrSenders.value)];
        }
      }
      assert nodes[..|nodes|] == nodes;
      return Success(());
    }

    /** Reads a document: exactly what it declares, or an exception where it is malformed or in another format. */
    method Load(d: Document, format: ConfigFileFormat) returns (r: Result<()>)
      requires receivers == map[] && senders == map[] && mappedFeeds == []
      modifies this
      ensures r.Success? <==> format == XML && WellFormedDocument(d)
      ensures r.Success? ==> mappedFeeds == DeclaredFeeds(d)
    {
      if format != XML {
        return Failure("Unrecognizable Mdd feed Config file format");
      }
      r := LoadReceivers(d.receivers);
      if r.Failure? { return; }
      r := LoadSenders(d.senders);
      if r.Failure? { return; }
      r := LoadMappedFeeds(d.mapping);
      if r.Success? {
        SameFeeds(d.mapping.value, InputTable(), DeclaredInput(d), OutputTable(), DeclaredOutput(d));
      }
    }
  }

  /** Feeds depend on what ids stand for, and on nothing else. */
  lemma SameFeeds(nodes: seq<MapNode>, inputs: Inputs, inputs': Inputs, outputs: Outputs, outputs': Outputs)
    requires (forall id :: inputs(id) == inputs'(id)) && (forall id :: outputs(id) == outputs'(id))
    ensures Collect(nodes, FeedIn(inputs, outputs)) == Collect(nodes, FeedIn(inputs', outputs'))
  {
    forall i | 0 <= i < |nodes|
      ensures FeedIn(inputs, outputs)(nodes[i]) == FeedIn(inputs', outputs')(nodes[i])
    {
      SameRoutes(nodes[i].children, inputs, inputs', outputs, outputs');
    }
    CollectSame(nodes, FeedIn(inputs, outputs), FeedIn(inputs', outputs'));
  }

  lemma SameRoutes(nodes: seq<ReceiverNode>, inputs: Inputs, inputs': Inputs, outputs: Outputs, outputs': Outputs)
    requires (forall id :: inputs(id) == inputs'(id)) && (forall id :: outputs(id) == outputs'(id))
    ensures Collect(nodes, RouteIn(inputs, outputs)) == Collect(nodes, RouteIn(inputs', outputs'))
  {
    forall i | 0 <= i < |nodes|
      ensures RouteIn(inputs, outputs)(nodes[i]) == RouteIn(inputs', outputs')(nodes[i])
    {
      SameSenders(nodes[i].children, outputs, outputs');
    }
    CollectSame(nodes, RouteIn(inputs, outputs), RouteIn(inputs', outputs'));
  }

  lemma SameSenders(nodes: seq<Node<nat>>, outputs: Outputs, outputs': Outputs)
    requires forall id :: outputs(id) == outputs'(id)
    ensures Collect(nodes, SenderIn(outputs)) == Collect(nodes, SenderIn(outputs'))
  {
    forall i | 0 <= i < |nodes|
      ensures SenderIn(outputs)(nodes[i]) == SenderIn(outputs')(nodes[i])
    {
      if nodes[i].attributes.Some? { assert outputs(nodes[i].attributes.value) == outputs'(nodes[i].attributes.value); }
    }
    CollectSame(nodes, SenderIn(outputs), SenderIn(outputs'));
  }
}
