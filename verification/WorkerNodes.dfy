/** core/examples/domain-manager/src/nodes_management.rs: the worker nodes as the objects that hold them. */
module WorkerNodes {
  import opened Wrappers
  import opened Nodes
  import NodesProperties

  class RoundRobin {
    var capabilities: map<string, seq<string>>
    var nodeIndices: map<string, nat>

    function View(): Balancer
      reads this
    {
      Balancer(capabilities, nodeIndices)
    }

    constructor ()
      ensures View() == EmptyNodes().balancer
    {
      capabilities := map[];
      nodeIndices := map[];
    }

    /** The counter is an atomic usize: it wraps around. */
    method FindKey(nodes: map<string, Node>, endpoint: string) returns (r: Option<Node>)
      requires BalancerOk(View(), nodes.Keys)
      modifies this`nodeIndices
      ensures (View(), r) == Nodes.FindKey(old(View()), nodes, endpoint)
      ensures r.Some? <==> endpoint in capabilities
      ensures r.Some? ==> r.value == nodes[capabilities[endpoint][old(nodeIndices)[endpoint] % |capabilities[endpoint]|]]
    {
      if endpoint !in capabilities {
        return None;
      }
      var nodeIds := capabilities[endpoint];
      var index := nodeIndices[endpoint];
      assert capabilities[endpoint][index % |nodeIds|] in nodes;
      var nodeId := nodeIds[index % |nodeIds|];
      if nodeId in nodes {
        nodeIndices := nodeIndices[endpoint := (index + 1) % USIZE_MODULUS];
        return Some(nodes[nodeId]);
      }
      return None;
    }

    method AddKey(endpoint: string, nodeId: string)
      modifies this
      ensures View() == Nodes.AddKey(old(View()), endpoint, nodeId)
    {
      if endpoint in capabilities {
        capabilities := capabilities[endpoint := capabilities[endpoint] + [nodeId]];
      } else {
        capabilities := capabilities[endpoint := [nodeId]];
        nodeIndices := nodeIndices[endpoint := 0];
      }
    }
  }

  class NodesManagement {
    var nodes: map<string, Node>
    const loadBalancer: RoundRobin
    var requests: map<string, seq<Ticket>>
    // The runtime's oneshot channels: those whose receiver is alive, and the next one to open.
    var channels: map<Ticket, Channel>
    var nextTicket: nat

    function View(): NodesState
      reads this, loadBalancer
    {
      NodesState(nodes, loadBalancer.View(), requests, channels, nextTicket)
    }

    constructor ()
      ensures View() == EmptyNodes() && fresh(loadBalancer)
    {
      nodes := map[];
      loadBalancer := new RoundRobin();
      requests := map[];
      channels := map[];
      nextTicket := 0;
    }

    /** Sends a node through a oneshot sender; false when the receiver was dropped. */
    method Send(t: Ticket, nodeId: string) returns (sent: bool)
      modifies this`channels
      ensures sent == (t in old(channels))
      ensures channels == if sent then old(channels)[t := old(channels)[t].(node := Some(nodeId))] else old(channels)
    {
      sent := t in channels;
      if sent {
        channels := channels[t := channels[t].(node := Some(nodeId))];
      }
    }

    /** The body of the loop in register_node. */
    method OfferCapability(nodeId: string, exists_: bool, capability: string)
      modifies this, loadBalancer
      ensures View() == Nodes.Offer(old(View()), nodeId, exists_, capability)
    {
      if capability in requests {
        if requests[capability] != [] {
          var sender := requests[capability][0];
          requests := requests[capability := requests[capability][1..]];
          var sent := Send(sender, nodeId);
          if sent {
            return;
          }
        }
      }
      if !exists_ {
        loadBalancer.AddKey(capability, nodeId);
      }
    }

    method RegisterNode(node: Node)
      requires Valid(View())
      modifies this, loadBalancer
      ensures View() == Nodes.Register(old(View()), node)
      ensures Valid(View())
    {
      hide Nodes.Offer, Valid;
      RegisterKeeps(View(), node);
      var exists_ := node.id in nodes;
      nodes := nodes[node.id := node];
      ghost var start := View();
      var k := 0;
      while k < |node.capabilities|
        invariant 0 <= k <= |node.capabilities|
        invariant View() == OfferAll(start, node.id, exists_, node.capabilities[..k])
      {
        assert node.capabilities[..k + 1][..k] == node.capabilities[..k];
        OfferCapability(node.id, exists_, node.capabilities[k]);
        k := k + 1;
      }
      assert node.capabilities[..k] == node.capabilities;
    }

    method FindNode(endpoint: string) returns (r: Option<Node>)
      requires Valid(View())
      modifies loadBalancer
      ensures (View(), r) == Nodes.Find(old(View()), endpoint)
      ensures Valid(View())
      ensures r.Some? <==> Pool(View(), endpoint) != []
    {
      FindKeeps(View(), endpoint);
      NodesProperties.FindIsTotal(View(), endpoint);
      r := loadBalancer.FindKey(nodes, endpoint);
    }

    method RequestNode(endpoint: string) returns (rx: Ticket)
      requires Valid(View())
      modifies this
      ensures (View(), rx) == Nodes.Request(old(View()), endpoint)
      ensures Valid(View()) && rx !in old(channels)
    {
      RequestKeeps(View(), endpoint);
      hide Valid;
      rx := nextTicket;
      channels := channels[rx := Channel(endpoint, None)];
      nextTicket := nextTicket + 1;
      if endpoint in requests {
        requests := requests[endpoint := requests[endpoint] + [rx]];
      } else {
        var requestList := [];
        requestList := requestList + [rx];
        requests := requests[endpoint := requestList];
      }
    }

    /** A oneshot receiver goes away. */
    method DropReceiver(rx: Ticket)
      requires Valid(View())
      modifies this`channels
      ensures View() == Nodes.Drop(old(View()), rx)
      ensures Valid(View())
    {
      DropKeeps(View(), rx);
      channels := channels - {rx};
    }
  }
}
