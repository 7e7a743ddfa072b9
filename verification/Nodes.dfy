/**
  The pool of worker nodes: round robin over the nodes that offer an endpoint, and first come,
  first served queues of the recruitments that found no node. One oneshot channel is a ticket;
  a ticket without a channel is one whose receiver was dropped.
 */
module Nodes {
  import opened Wrappers
  import opened Orders

  const USIZE_MODULUS: nat := 0x1_0000_0000_0000_0000

  type Ticket = nat

  datatype Node = Node(id: string, name: string, capabilities: seq<string>)

  datatype Balancer = Balancer(capabilities: map<string, seq<string>>, nodeIndices: map<string, nat>)

  /** The receiving half of a node request: the endpoint asked for and the node sent, if any. */
  datatype Channel = Channel(endpoint: string, node: Option<string>)

  datatype NodesState = NodesState(
    nodes: map<string, Node>,
    balancer: Balancer,
    requests: map<string, seq<Ticket>>,
    channels: map<Ticket, Channel>,
    nextTicket: nat)

  function EmptyNodes(): NodesState {
    NodesState(map[], Balancer(map[], map[]), map[], map[], 0)
  }

  // ---------- Invariant ----------

  /** Every endpoint of the balancer has a counter and a non-empty pool of known nodes. */
  ghost predicate BalancerOk(b: Balancer, known: set<string>) {
    && b.capabilities.Keys == b.nodeIndices.Keys
    && (forall e | e in b.capabilities :: b.capabilities[e] != [] && b.nodeIndices[e] < USIZE_MODULUS)
    && (forall e, i | e in b.capabilities && 0 <= i < |b.capabilities[e]| :: b.capabilities[e][i] in known)
  }

  /** A live ticket in a queue is still unserved and asked for that queue's endpoint. */
  ghost predicate RequestsOk(ns: NodesState) {
    forall e | e in ns.requests ::
      && NoDuplicates(ns.requests[e])
      && (forall t | t in ns.requests[e] :: t < ns.nextTicket && (t in ns.channels ==> ns.channels[t] == Channel(e, None)))
  }

  /** A live unserved ticket is waiting in its endpoint's queue. */
  ghost predicate ChannelsOk(ns: NodesState) {
    forall t | t in ns.channels ::
      && t < ns.nextTicket
      && (ns.channels[t].node.None? ==> t in Waiting(ns, ns.channels[t].endpoint))
  }

  ghost predicate Valid(ns: NodesState) {
    && BalancerOk(ns.balancer, ns.nodes.Keys)
    && RequestsOk(ns)
    && ChannelsOk(ns)
  }

  // ---------- Operations ----------

  /**
    Serves the slot the endpoint's counter points at. A missing counter or an empty pool, where the
    source would panic, is reported as no node here; `BalancerOk` rules both out.
   */
  function FindKey(b: Balancer, nodes: map<string, Node>, endpoint: string): (r: (Balancer, Option<Node>)) {
    if endpoint in b.capabilities && endpoint in b.nodeIndices && b.capabilities[endpoint] != [] then
      var pool, index := b.capabilities[endpoint], b.nodeIndices[endpoint];
      var nodeId := pool[index % |pool|];
      if nodeId in nodes then
        (b.(nodeIndices := b.nodeIndices[endpoint := (index + 1) % USIZE_MODULUS]), Some(nodes[nodeId]))
      else
        (b, None)
    else
      (b, None)
  }

  function AddKey(b: Balancer, endpoint: string, nodeId: string): Balancer {
    if endpoint in b.capabilities then
      b.(capabilities := b.capabilities[endpoint := b.capabilities[endpoint] + [nodeId]])
    else
      Balancer(b.capabilities[endpoint := [nodeId]], b.nodeIndices[endpoint := 0])
  }

  function Find(ns: NodesState, endpoint: string): (r: (NodesState, Option<Node>)) {
    var (b, node) := FindKey(ns.balancer, ns.nodes, endpoint);
    (ns.(balancer := b), node)
  }

  /** Offers one capability of a node: to the front requester, or to the endpoint's pool. */
  function Offer(ns: NodesState, nodeId: string, exists_: bool, capability: string): NodesState {
    if capability in ns.requests && ns.requests[capability] != [] then
      var t := ns.requests[capability][0];
      var popped := ns.(requests := ns.requests[capability := ns.requests[capability][1..]]);
      if t in ns.channels then
        popped.(channels := ns.channels[t := ns.channels[t].(node := Some(nodeId))])
      else if exists_ then
        popped
      else
        popped.(balancer := AddKey(ns.balancer, capability, nodeId))
    else if exists_ then
      ns
    else
      ns.(balancer := AddKey(ns.balancer, capability, nodeId))
  }

  function OfferAll(ns: NodesState, nodeId: string, exists_: bool, capabilities: seq<string>): NodesState
    decreases |capabilities|
  {
    if capabilities == [] then ns
    else
      var n := |capabilities| - 1;
      Offer(OfferAll(ns, nodeId, exists_, capabilities[..n]), nodeId, exists_, capabilities[n])
  }

  function Register(ns: NodesState, node: Node): NodesState {
    OfferAll(ns.(nodes := ns.nodes[node.id := node]), node.id, node.id in ns.nodes, node.capabilities)
  }

  /** Opens a oneshot channel and queues its sender; the result's second part is the new ticket. */
  function Request(ns: NodesState, endpoint: string): (r: (NodesState, Ticket)) {
    var t := ns.nextTicket;
    (ns.(requests := ns.requests[endpoint := Waiting(ns, endpoint) + [t]],
         channels := ns.channels[t := Channel(endpoint, None)],
         nextTicket := t + 1), t)
  }

  /** The receiver of a ticket goes away: it was aborted, or it received its node. */
  function Drop(ns: NodesState, t: Ticket): NodesState {
    ns.(channels := ns.channels - {t})
  }

  function Waiting(ns: NodesState, endpoint: string): seq<Ticket> {
    if endpoint in ns.requests then ns.requests[endpoint] else []
  }

  function Pool(ns: NodesState, endpoint: string): seq<string> {
    if endpoint in ns.balancer.capabilities then ns.balancer.capabilities[endpoint] else []
  }

  // ---------- Every operation keeps the invariant ----------

  lemma AddKeyKeeps(b: Balancer, endpoint: string, nodeId: string, known: set<string>)
    requires BalancerOk(b, known) && nodeId in known
    ensures BalancerOk(AddKey(b, endpoint, nodeId), known)
  {
  }

  lemma FindKeeps(ns: NodesState, endpoint: string)
    requires Valid(ns)
    ensures Valid(Find(ns, endpoint).0)
    ensures Find(ns, endpoint).0.channels == ns.channels
  {
  }

  lemma OfferKeeps(ns: NodesState, nodeId: string, exists_: bool, capability: string)
    requires Valid(ns) && nodeId in ns.nodes
    ensures Valid(Offer(ns, nodeId, exists_, capability))
    ensures Offer(ns, nodeId, exists_, capability).nodes == ns.nodes
    ensures Offer(ns, nodeId, exists_, capability).channels.Keys == ns.channels.Keys
  {
    var ns' := Offer(ns, nodeId, exists_, capability);
    AddKeyKeeps(ns.balancer, capability, nodeId, ns.nodes.Keys);
    var q := Waiting(ns, capability);
    if q != [] {
      assert q == [q[0]] + q[1..];
      assert NoDuplicates(ns.requests[capability]);
      assert q[0] in ns.requests[capability];
      OfferKeepsRequests(ns, nodeId, exists_, capability);
      OfferKeepsChannels(ns, nodeId, exists_, capability);
    } else {
      assert forall e :: Waiting(ns', e) == Waiting(ns, e);
    }
  }

  lemma OfferKeepsRequests(ns: NodesState, nodeId: string, exists_: bool, capability: string)
    requires Valid(ns) && Waiting(ns, capability) != []
    ensures RequestsOk(Offer(ns, nodeId, exists_, capability))
  {
  }

  lemma OfferKeepsChannels(ns: NodesState, nodeId: string, exists_: bool, capability: string)
    requires Valid(ns) && Waiting(ns, capability) != []
    ensures ChannelsOk(Offer(ns, nodeId, exists_, capability))
  {
  }

  lemma {:induction false} OfferAllKeeps(ns: NodesState, nodeId: string, exists_: bool, capabilities: seq<string>)
    requires Valid(ns) && nodeId in ns.nodes
    ensures Valid(OfferAll(ns, nodeId, exists_, capabilities))
    ensures OfferAll(ns, nodeId, exists_, capabilities).nodes == ns.nodes
    ensures OfferAll(ns, nodeId, exists_, capabilities).channels.Keys == ns.channels.Keys
    decreases |capabilities|
  {
    if capabilities != [] {
      var n := |capabilities| - 1;
      OfferAllKeeps(ns, nodeId, exists_, capabilities[..n]);
      OfferKeeps(OfferAll(ns, nodeId, exists_, capabilities[..n]), nodeId, exists_, capabilities[n]);
    }
  }

  lemma KnownKeeps(ns: NodesState, node: Node)
    requires Valid(ns)
    ensures Valid(ns.(nodes := ns.nodes[node.id := node]))
  {
  }

  lemma RegisterKeeps(ns: NodesState, node: Node)
    requires Valid(ns)
    ensures Valid(Register(ns, node))
    ensures Register(ns, node).channels.Keys == ns.channels.Keys
  {
    KnownKeeps(ns, node);
    OfferAllKeeps(ns.(nodes := ns.nodes[node.id := node]), node.id, node.id in ns.nodes, node.capabilities);
  }

  lemma RequestKeeps(ns: NodesState, endpoint: string)
    requires Valid(ns)
    ensures Valid(Request(ns, endpoint).0)
    ensures Request(ns, endpoint).1 !in ns.channels
  {
    var ns', t := Request(ns, endpoint).0, ns.nextTicket;
    assert forall e | e != endpoint :: Waiting(ns', e) == Waiting(ns, e);
    assert Waiting(ns', endpoint) == Waiting(ns, endpoint) + [t];
    assert t !in ns.channels && t !in Waiting(ns, endpoint);
    forall u | u in ns'.channels && ns'.channels[u].node.None?
      ensures u in Waiting(ns', ns'.channels[u].endpoint)
    {
      if u != t { assert u in Waiting(ns, ns.channels[u].endpoint); }
    }
  }

  lemma DropKeeps(ns: NodesState, t: Ticket)
    requires Valid(ns)
    ensures Valid(Drop(ns, t))
  {
  }
}
