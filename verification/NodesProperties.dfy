/** What the node pool promises: total and fair round robin, and conserved, first come first served offers. */
module NodesProperties {
  import opened Arithmetic
  import opened Wrappers
  import opened Nodes

  // ---------- find_node ----------

  /** The pool slot that the next find for this endpoint serves. */
  function Slot(ns: NodesState, endpoint: string): (slot: nat)
    requires Valid(ns) && endpoint in ns.balancer.capabilities
    ensures slot < |Pool(ns, endpoint)|
  {
    ns.balancer.nodeIndices[endpoint] % |ns.balancer.capabilities[endpoint]|
  }

  /** A find succeeds exactly when the endpoint has a pool, and then serves that pool's next slot. */
  lemma FindIsTotal(ns: NodesState, endpoint: string)
    requires Valid(ns)
    ensures Find(ns, endpoint).1.Some? <==> Pool(ns, endpoint) != []
    ensures Find(ns, endpoint).1.Some? ==>
              && Pool(ns, endpoint)[Slot(ns, endpoint)] in ns.nodes
              && Find(ns, endpoint).1.value == ns.nodes[Pool(ns, endpoint)[Slot(ns, endpoint)]]
    ensures forall e :: Pool(Find(ns, endpoint).0, e) == Pool(ns, e) && Waiting(Find(ns, endpoint).0, e) == Waiting(ns, e)
  {
  }

  /** The slots that `m` successive finds serve. */
  ghost function ServedSlots(ns: NodesState, endpoint: string, m: nat): (slots: seq<nat>)
    requires Valid(ns) && endpoint in ns.balancer.capabilities
    ensures |slots| == m
    decreases m
  {
    if m == 0 then []
    else
      FindKeeps(ns, endpoint);
      [Slot(ns, endpoint)] + ServedSlots(Find(ns, endpoint).0, endpoint, m - 1)
  }

  /** The slots read off a counter that wraps at the width of a usize. */
  function CounterSlots(start: nat, len: nat, m: nat): (slots: seq<nat>)
    requires len > 0
    ensures |slots| == m
    ensures forall i | 0 <= i < m :: slots[i] == (start + i) % USIZE_MODULUS % len
  {
    seq(m, i requires 0 <= i => (start + i) % USIZE_MODULUS % len)
  }

  lemma {:induction false} ServedSlotsFollowCounter(ns: NodesState, endpoint: string, m: nat)
    requires Valid(ns) && endpoint in ns.balancer.capabilities
    ensures ServedSlots(ns, endpoint, m)
         == CounterSlots(ns.balancer.nodeIndices[endpoint], |Pool(ns, endpoint)|, m)
    decreases m
  {
    if m > 0 {
      FindKeeps(ns, endpoint);
      ServedSlotsFollowCounter(Find(ns, endpoint).0, endpoint, m - 1);
      CounterSlotsUnfold(ns.balancer.nodeIndices[endpoint], |Pool(ns, endpoint)|, m);
    }
  }

  lemma CounterSlotsUnfold(c: nat, len: nat, m: nat)
    requires len > 0 && m > 0 && c < USIZE_MODULUS
    ensures CounterSlots(c, len, m) == [c % len] + CounterSlots((c + 1) % USIZE_MODULUS, len, m - 1)
  {
    var rest := CounterSlots((c + 1) % USIZE_MODULUS, len, m - 1);
    SmallRemainder(c, USIZE_MODULUS);
    forall i | 0 <= i < m - 1
      ensures rest[i] == CounterSlots(c, len, m)[i + 1]
    {
      WrapStep(c, i, USIZE_MODULUS);
    }
  }

  /** Every slot is served floor(m / len) or ceil(m / len) times. */
  ghost predicate Fair(slots: seq<nat>, len: nat)
    requires len > 0
  {
    forall j: nat | j < len :: |slots| / len <= multiset(slots)[j] <= (|slots| + len - 1) / len
  }

  lemma {:induction false} CountOfResidue(c: nat, len: nat, m: nat, slots: seq<nat>, j: nat)
    requires len > 0 && j < len && |slots| == m
    requires forall i | 0 <= i < m :: slots[i] == (c + i) % len
    ensures multiset(slots)[j] == (c + m - 1 - j) / len - (c - 1 - j) / len
    decreases m
  {
    if m > 0 {
      CountOfResidue(c, len, m - 1, slots[..m - 1], j);
      assert slots == slots[..m - 1] + [slots[m - 1]];
      ResidueStep(c + m - 1 - j, len);
      ResidueMatch(c + m - 1, len, j);
    }
  }

  lemma ResiduesAreFair(c: nat, len: nat, m: nat, slots: seq<nat>)
    requires len > 0 && |slots| == m
    requires forall i | 0 <= i < m :: slots[i] == (c + i) % len
    ensures Fair(slots, len)
  {
    forall j: nat | j < len
      ensures m / len <= multiset(slots)[j] <= (m + len - 1) / len
    {
      CountOfResidue(c, len, m, slots, j);
      FloorDifference(c - 1 - j, m, len);
    }
  }

  /** As long as the counter does not wrap, any number of finds is shared fairly. */
  lemma FairUntilWrap(ns: NodesState, endpoint: string, m: nat)
    requires Valid(ns) && endpoint in ns.balancer.capabilities
    requires ns.balancer.nodeIndices[endpoint] + m <= USIZE_MODULUS
    ensures Fair(ServedSlots(ns, endpoint, m), |Pool(ns, endpoint)|)
  {
    ServedSlotsFollowCounter(ns, endpoint, m);
    UnwrappedCounterIsFair(ns.balancer.nodeIndices[endpoint], |Pool(ns, endpoint)|, m);
  }

  lemma UnwrappedCounterIsFair(c: nat, len: nat, m: nat)
    requires len > 0 && c + m <= USIZE_MODULUS
    ensures Fair(CounterSlots(c, len, m), len)
  {
    var slots := CounterSlots(c, len, m);
    forall i | 0 <= i < m
      ensures slots[i] == (c + i) % len
    {
      SmallRemainder(c + i, USIZE_MODULUS);
    }
    ResiduesAreFair(c, len, m, slots);
  }

  /** The pool sizes for which the wrapping counter is fair from every start over every number of calls. */
  ghost predicate AlwaysFair(len: nat)
    requires len > 0
  {
    forall start: nat, m: nat :: Fair(CounterSlots(start, len, m), len)
  }

  /** Exactly the pool sizes that divide the counter's range stay fair across a wrap. */
  lemma AlwaysFairIffPoolDividesRange(len: nat)
    requires 0 < len < USIZE_MODULUS
    ensures AlwaysFair(len) <==> USIZE_MODULUS % len == 0
  {
    if USIZE_MODULUS % len == 0 {
      forall start: nat, m: nat
        ensures Fair(CounterSlots(start, len, m), len)
      {
        DividingPoolIsFair(start, len, m);
      }
    } else {
      WrapServesSlotZeroTwice(len);
    }
  }

  lemma DividingPoolIsFair(start: nat, len: nat, m: nat)
    requires len > 0 && USIZE_MODULUS % len == 0
    ensures Fair(CounterSlots(start, len, m), len)
  {
    var slots := CounterSlots(start, len, m);
    forall i | 0 <= i < m
      ensures slots[i] == (start + i) % len
    {
      WrapKeepsResidue(start + i, USIZE_MODULUS, len);
    }
    ResiduesAreFair(start, len, m, slots);
  }

  /** Starting at the last multiple of the pool size below the range, slot 0 is served twice in too few calls. */
  lemma WrapServesSlotZeroTwice(len: nat)
    requires 0 < len < USIZE_MODULUS && USIZE_MODULUS % len != 0
    ensures !AlwaysFair(len)
  {
    var r := USIZE_MODULUS % len;
    var start, m := USIZE_MODULUS - r, r + 1;
    var slots := CounterSlots(start, len, m);
    LastMultiple(USIZE_MODULUS, len);
    assert slots[0] == 0 by {
      SmallRemainder(start, USIZE_MODULUS);
    }
    assert slots[r] == 0 by {
      QuotientIs(USIZE_MODULUS, 1, 0, USIZE_MODULUS);
      SmallRemainder(0, len);
    }
    TwoOccurrences(slots, 0, r);
    FewCalls(r, len);
    assert !Fair(slots, len);
  }

  lemma LastMultiple(u: nat, len: nat)
    requires 0 < len
    ensures (u - u % len) % len == 0
  {
    assert u == (u / len) * len + u % len;
    QuotientIs(u - u % len, u / len, 0, len);
  }

  lemma FewCalls(r: nat, len: nat)
    requires 0 < r < len
    ensures (r + 1 + len - 1) / len == 1
  {
  }

  lemma TwoOccurrences(s: seq<nat>, i: nat, j: nat)
    requires i < j < |s| && s[i] == s[j]
    ensures multiset(s)[s[i]] >= 2
  {
    assert s == s[..i] + [s[i]] + s[i + 1..j] + [s[j]] + s[j + 1..];
  }

  // ---------- register_node ----------

  /** How many of a list of tickets still have a receiver. */
  function LiveCount(q: seq<Ticket>, channels: map<Ticket, Channel>): (n: nat)
    ensures n <= |q|
  {
    if q == [] then 0
    else LiveCount(q[..|q| - 1], channels) + if q[|q| - 1] in channels then 1 else 0
  }

  function Copies(nodeId: string, n: nat): (s: seq<string>)
    ensures |s| == n && forall i | 0 <= i < n :: s[i] == nodeId
  {
    seq(n, _ => nodeId)
  }

  /** How many requesters `k` offers take off an endpoint's queue. */
  function Popped(ns: NodesState, k: nat, endpoint: string): (p: nat)
    ensures p <= |Waiting(ns, endpoint)| && p <= k
  {
    if k < |Waiting(ns, endpoint)| then k else |Waiting(ns, endpoint)|
  }

  /**
    What `k` offers of one endpoint do to it: the requesters that leave are the oldest ones; each of
    them that is still listening gets the node; every other offer of a new node becomes one slot at
    the end of the pool; and nothing else changes.
   */
  ghost predicate OffersConserved(ns: NodesState, ns': NodesState, nodeId: string, exists_: bool, k: nat, e: string) {
    var served := Waiting(ns, e)[..Popped(ns, k, e)];
    && Waiting(ns', e) == Waiting(ns, e)[|served|..]
    && Pool(ns', e) == Pool(ns, e) + Copies(nodeId, if exists_ then 0 else k - LiveCount(served, ns.channels))
    && ChannelsServed(ns, ns', nodeId, served, e)
  }

  ghost predicate ChannelsServed(ns: NodesState, ns': NodesState, nodeId: string, served: seq<Ticket>, e: string) {
    && ns'.channels.Keys == ns.channels.Keys
    && (forall t | t in ns.channels && ns.channels[t].endpoint == e ::
          ns'.channels[t] == if t in served then Channel(e, Some(nodeId)) else ns.channels[t])
  }

  lemma {:induction false} OfferAllConserves(ns: NodesState, nodeId: string, exists_: bool, capabilities: seq<string>, e: string)
    requires Valid(ns) && nodeId in ns.nodes
    ensures OffersConserved(ns, OfferAll(ns, nodeId, exists_, capabilities), nodeId, exists_, multiset(capabilities)[e], e)
    decreases |capabilities|
  {
    if capabilities == [] {
      NoOffers(ns, nodeId, exists_, e);
    } else {
      hide Valid, Offer, OffersConserved;
      var n := |capabilities| - 1;
      var before := capabilities[..n];
      assert capabilities == before + [capabilities[n]];
      assert multiset(capabilities)[e] == if capabilities[n] == e then multiset(before)[e] + 1 else multiset(before)[e];
      OfferAllConserves(ns, nodeId, exists_, before, e);
      OfferAllKeeps(ns, nodeId, exists_, before);
      OfferConserves(ns, OfferAll(ns, nodeId, exists_, before), nodeId, exists_, capabilities[n], multiset(before)[e], e);
    }
  }

  lemma NoOffers(ns: NodesState, nodeId: string, exists_: bool, e: string)
    ensures OffersConserved(ns, ns, nodeId, exists_, 0, e)
  {
    assert Waiting(ns, e)[..Popped(ns, 0, e)] == [];
    assert Waiting(ns, e)[0..] == Waiting(ns, e);
    assert Pool(ns, e) + Copies(nodeId, 0) == Pool(ns, e);
  }

  lemma OfferConserves(ns: NodesState, mid: NodesState, nodeId: string, exists_: bool, capability: string, k: nat, e: string)
    requires Valid(ns) && Valid(mid)
    requires OffersConserved(ns, mid, nodeId, exists_, k, e)
    ensures OffersConserved(ns, Offer(mid, nodeId, exists_, capability), nodeId, exists_, if capability == e then k + 1 else k, e)
  {
    if capability != e {
      OfferElsewhere(mid, nodeId, exists_, capability, e);
    } else if Waiting(mid, e) == [] {
      OfferToPool(ns, mid, nodeId, exists_, k, e);
    } else {
      assert Waiting(mid, e)[0] in mid.requests[e];
      OfferToFront(ns, mid, nodeId, exists_, k, e);
    }
  }

  lemma OfferElsewhere(ns: NodesState, nodeId: string, exists_: bool, capability: string, e: string)
    requires Valid(ns) && capability != e
    ensures var ns' := Offer(ns, nodeId, exists_, capability);
      && Waiting(ns', e) == Waiting(ns, e)
      && Pool(ns', e) == Pool(ns, e)
      && ns'.channels.Keys == ns.channels.Keys
      && forall t | t in ns.channels && ns.channels[t].endpoint == e :: ns'.channels[t] == ns.channels[t]
  {
  }

  lemma OfferToPool(ns: NodesState, mid: NodesState, nodeId: string, exists_: bool, k: nat, e: string)
    requires OffersConserved(ns, mid, nodeId, exists_, k, e) && Waiting(mid, e) == []
    ensures OffersConserved(ns, Offer(mid, nodeId, exists_, e), nodeId, exists_, k + 1, e)
  {
    var q := Waiting(ns, e);
    assert q[..Popped(ns, k, e)] == q == q[..Popped(ns, k + 1, e)];
    CopiesStep(nodeId, k - LiveCount(q, ns.channels));
    OneMoreInPool(mid, nodeId, exists_, e);
    hide LiveCount, Copies, Offer, Pool, Waiting;
  }

  lemma OneMoreInPool(mid: NodesState, nodeId: string, exists_: bool, e: string)
    requires Waiting(mid, e) == []
    ensures var ns' := Offer(mid, nodeId, exists_, e);
      && Waiting(ns', e) == []
      && ns'.channels == mid.channels
      && Pool(ns', e) == Pool(mid, e) + if exists_ then [] else [nodeId]
  {
  }

  ghost predicate FrontOk(ns: NodesState, e: string) {
    Waiting(ns, e) != [] && (Waiting(ns, e)[0] in ns.channels ==> ns.channels[Waiting(ns, e)[0]] == Channel(e, None))
  }

  lemma OfferToFront(ns: NodesState, mid: NodesState, nodeId: string, exists_: bool, k: nat, e: string)
    requires OffersConserved(ns, mid, nodeId, exists_, k, e) && FrontOk(mid, e)
    ensures OffersConserved(ns, Offer(mid, nodeId, exists_, e), nodeId, exists_, k + 1, e)
  {
    hide *;
    var q := Waiting(ns, e);
    FrontIsNext(ns, mid, nodeId, exists_, k, e);
    var t, before := q[k], q[..k];
    assert q[..k + 1] == before + [t] && q[k..][0] == t && q[k..][1..] == q[k + 1..];
    FrontWaiting(mid, nodeId, exists_, e);
    LiveCountStep(before, t, ns.channels);
    var n := k - LiveCount(before, ns.channels);
    FrontPool(mid, nodeId, exists_, n, e);
    var pool, more := Pool(ns, e), if t !in mid.channels && !exists_ then 1 else 0;
    assert pool + Copies(nodeId, if exists_ then 0 else n) + Copies(nodeId, more) == pool + (Copies(nodeId, if exists_ then 0 else n) + Copies(nodeId, more));
    FrontChannel(ns, mid, nodeId, exists_, before, e);
    ServedAsFarAs(ns, Offer(mid, nodeId, exists_, e), nodeId, exists_, k + 1, e);
  }

  lemma FrontIsNext(ns: NodesState, mid: NodesState, nodeId: string, exists_: bool, k: nat, e: string)
    requires OffersConserved(ns, mid, nodeId, exists_, k, e) && FrontOk(mid, e)
    ensures var q := Waiting(ns, e);
      && k < |q| && Waiting(mid, e) == q[k..] && Waiting(mid, e) != []
      && LiveCount(q[..k], ns.channels) <= k
      && Pool(mid, e) == Pool(ns, e) + Copies(nodeId, if exists_ then 0 else k - LiveCount(q[..k], ns.channels))
      && ChannelsServed(ns, mid, nodeId, q[..k], e) && ns.channels.Keys == mid.channels.Keys
    ensures Copies(nodeId, 0) + Copies(nodeId, 0) == Copies(nodeId, 0)
  {
    hide LiveCount, Waiting, Pool;
  }

  lemma ServedAsFarAs(ns: NodesState, ns': NodesState, nodeId: string, exists_: bool, k: nat, e: string)
    requires var q := Waiting(ns, e);
      && k <= |q| && Waiting(ns', e) == q[k..] && LiveCount(q[..k], ns.channels) <= k
      && Pool(ns', e) == Pool(ns, e) + Copies(nodeId, if exists_ then 0 else k - LiveCount(q[..k], ns.channels))
      && ChannelsServed(ns, ns', nodeId, q[..k], e)
    ensures OffersConserved(ns, ns', nodeId, exists_, k, e)
  {
    hide LiveCount, Waiting, Pool, Copies, ChannelsServed;
  }

  lemma FrontWaiting(mid: NodesState, nodeId: string, exists_: bool, e: string)
    requires Waiting(mid, e) != []
    ensures Waiting(Offer(mid, nodeId, exists_, e), e) == Waiting(mid, e)[1..]
  {
  }

  /** The pool only gains the node when the front requester is gone. */
  lemma FrontPool(mid: NodesState, nodeId: string, exists_: bool, n: nat, e: string)
    requires Waiting(mid, e) != []
    ensures var dead := Waiting(mid, e)[0] !in mid.channels;
      Pool(Offer(mid, nodeId, exists_, e), e) == Pool(mid, e) + Copies(nodeId, if dead && !exists_ then 1 else 0)
    ensures Copies(nodeId, n) + Copies(nodeId, 1) == Copies(nodeId, n + 1)
    ensures Copies(nodeId, n) + Copies(nodeId, 0) == Copies(nodeId, n)
  {
  }

  lemma FrontChannel(ns: NodesState, mid: NodesState, nodeId: string, exists_: bool, served: seq<Ticket>, e: string)
    requires ChannelsServed(ns, mid, nodeId, served, e) && FrontOk(mid, e)
    ensures ChannelsServed(ns, Offer(mid, nodeId, exists_, e), nodeId, served + [Waiting(mid, e)[0]], e)
  {
  }

  lemma CopiesStep(nodeId: string, n: nat)
    ensures Copies(nodeId, n) + [nodeId] == Copies(nodeId, n + 1)
  {
  }

  lemma LiveCountStep(q: seq<Ticket>, t: Ticket, channels: map<Ticket, Channel>)
    ensures LiveCount(q + [t], channels) == LiveCount(q, channels) + if t in channels then 1 else 0
  {
  }

  /** Registering a node conserves its offers at every endpoint. */
  lemma RegisterConservesOffers(ns: NodesState, node: Node, e: string)
    requires Valid(ns)
    ensures OffersConserved(ns, Register(ns, node), node.id, node.id in ns.nodes, multiset(node.capabilities)[e], e)
  {
    hide Valid, OffersConserved, OfferAll;
    KnownKeeps(ns, node);
    var known := ns.(nodes := ns.nodes[node.id := node]);
    OfferAllConserves(known, node.id, node.id in ns.nodes, node.capabilities, e);
    ConservedFromKnown(ns, known, Register(ns, node), node.id, node.id in ns.nodes, multiset(node.capabilities)[e], e);
  }

  /** A registration leaves the counters of known endpoints alone, and those of new ones start at 0. */
  lemma RegistrationKeepsCounters(ns: NodesState, node: Node, e: string)
    requires Valid(ns)
    ensures var ns' := Register(ns, node);
      && ns'.nodes == ns.nodes[node.id := node]
      && (e in ns.balancer.nodeIndices ==> e in ns'.balancer.nodeIndices && ns'.balancer.nodeIndices[e] == ns.balancer.nodeIndices[e])
      && (e !in ns.balancer.nodeIndices && e in ns'.balancer.nodeIndices ==> ns'.balancer.nodeIndices[e] == 0)
  {
    KnownKeeps(ns, node);
    OffersKeepCounters(ns.(nodes := ns.nodes[node.id := node]), node.id, node.id in ns.nodes, node.capabilities, e);
  }

  lemma {:induction false} OffersKeepCounters(ns: NodesState, nodeId: string, exists_: bool, capabilities: seq<string>, e: string)
    requires Valid(ns) && nodeId in ns.nodes
    ensures var ns' := OfferAll(ns, nodeId, exists_, capabilities);
      && ns'.nodes == ns.nodes
      && (e in ns.balancer.nodeIndices ==> e in ns'.balancer.nodeIndices && ns'.balancer.nodeIndices[e] == ns.balancer.nodeIndices[e])
      && (e !in ns.balancer.nodeIndices && e in ns'.balancer.nodeIndices ==> ns'.balancer.nodeIndices[e] == 0)
    decreases |capabilities|
  {
    if capabilities != [] {
      var n := |capabilities| - 1;
      OffersKeepCounters(ns, nodeId, exists_, capabilities[..n], e);
      OfferAllKeeps(ns, nodeId, exists_, capabilities[..n]);
      OfferKeepsCounters(OfferAll(ns, nodeId, exists_, capabilities[..n]), nodeId, exists_, capabilities[n], e);
    }
  }

  lemma OfferKeepsCounters(ns: NodesState, nodeId: string, exists_: bool, capability: string, e: string)
    requires Valid(ns)
    ensures var ns' := Offer(ns, nodeId, exists_, capability);
      && ns'.nodes == ns.nodes
      && (e in ns.balancer.nodeIndices ==> e in ns'.balancer.nodeIndices && ns'.balancer.nodeIndices[e] == ns.balancer.nodeIndices[e])
      && (e !in ns.balancer.nodeIndices && e in ns'.balancer.nodeIndices ==> ns'.balancer.nodeIndices[e] == 0)
  {
  }

  lemma ConservedFromKnown(ns: NodesState, known: NodesState, ns': NodesState, nodeId: string, exists_: bool, k: nat, e: string)
    requires known == ns.(nodes := known.nodes) && OffersConserved(known, ns', nodeId, exists_, k, e)
    ensures OffersConserved(ns, ns', nodeId, exists_, k, e)
  {
    assert Waiting(known, e) == Waiting(ns, e) && Pool(known, e) == Pool(ns, e) && Popped(known, k, e) == Popped(ns, k, e);
    hide LiveCount, Copies, Waiting, Pool, Popped;
  }

  // ---------- A waiting requester and a pool for one endpoint ----------

  /** Someone still listening waits for an endpoint that has a pool. */
  ghost predicate Starved(ns: NodesState, e: string) {
    Pool(ns, e) != [] && exists t :: t in Waiting(ns, e) && t in ns.channels
  }

  /** Looking for a node first and queueing only when there is none never starves anybody. */
  lemma FindThenRequestNeverStarves(ns: NodesState, endpoint: string, e: string)
    requires Valid(ns) && !Starved(ns, e)
    ensures !Starved(Find(ns, endpoint).0, e)
    ensures Find(ns, endpoint).1.None? ==> !Starved(Request(ns, endpoint).0, e)
  {
  }

  /**
    One offer of a new node starves a requester exactly when the front requester has gone away
    while one that still listens waits behind it.
   */
  lemma OfferStarvesIffFrontIsDead(ns: NodesState, nodeId: string, e: string)
    requires Valid(ns) && nodeId in ns.nodes && !Starved(ns, e)
    ensures Starved(Offer(ns, nodeId, false, e), e) <==>
              && Waiting(ns, e) != []
              && Waiting(ns, e)[0] !in ns.channels
              && exists t :: t in Waiting(ns, e)[1..] && t in ns.channels
  {
  }

  /** No ticket waiting in any queue has lost its receiver. */
  ghost predicate NobodyLeft(ns: NodesState) {
    forall e, t | e in ns.requests && t in ns.requests[e] :: t in ns.channels
  }

  ghost predicate Calm(ns: NodesState) {
    && Valid(ns)
    && NobodyLeft(ns)
    && forall e :: !Starved(ns, e)
  }

  /** Looking for a node keeps it calm, and so does asking for one that was not found. */
  lemma RecruitingKeepsCalm(ns: NodesState, endpoint: string)
    requires Calm(ns)
    ensures Find(ns, endpoint).1.Some? ==> Calm(Find(ns, endpoint).0)
    ensures Find(ns, endpoint).1.None? ==> Calm(Request(ns, endpoint).0)
  {
    FindKeeps(ns, endpoint);
    FindIsTotal(ns, endpoint);
    RequestKeeps(ns, endpoint);
    forall e
      ensures Find(ns, endpoint).1.Some? ==> !Starved(Find(ns, endpoint).0, e)
      ensures Find(ns, endpoint).1.None? ==> !Starved(Request(ns, endpoint).0, e)
    {
      FindThenRequestNeverStarves(ns, endpoint, e);
    }
  }

  lemma OfferKeepsCalm(ns: NodesState, nodeId: string, exists_: bool, capability: string)
    requires Calm(ns) && nodeId in ns.nodes
    ensures Calm(Offer(ns, nodeId, exists_, capability))
  {
    var ns' := Offer(ns, nodeId, exists_, capability);
    OfferKeeps(ns, nodeId, exists_, capability);
    var q := Waiting(ns, capability);
    if q != [] {
      assert q[0] in ns.requests[capability];
      assert q[0] in ns.channels;
      assert q == [q[0]] + q[1..];
      assert !Starved(ns, capability);
    }
    forall e, t | e in ns'.requests && t in ns'.requests[e]
      ensures t in ns'.channels
    {
      assert t in ns.requests[e];
    }
    forall e
      ensures !Starved(ns', e)
    {
      assert !Starved(ns, e);
      if e != capability {
        OfferElsewhere(ns, nodeId, exists_, capability, e);
      }
    }
  }

  lemma {:induction false} OfferAllKeepsCalm(ns: NodesState, nodeId: string, exists_: bool, capabilities: seq<string>)
    requires Calm(ns) && nodeId in ns.nodes
    ensures Calm(OfferAll(ns, nodeId, exists_, capabilities))
    ensures OfferAll(ns, nodeId, exists_, capabilities).nodes == ns.nodes
    decreases |capabilities|
  {
    if capabilities != [] {
      var n := |capabilities| - 1;
      OfferAllKeepsCalm(ns, nodeId, exists_, capabilities[..n]);
      OfferAllKeeps(ns, nodeId, exists_, capabilities[..n]);
      OfferAllKeeps(ns, nodeId, exists_, capabilities);
      OfferKeepsCalm(OfferAll(ns, nodeId, exists_, capabilities[..n]), nodeId, exists_, capabilities[n]);
    }
  }

  lemma ReceivingKeepsCalm(ns: NodesState, t: Ticket)
    requires Calm(ns) && t in ns.channels && ns.channels[t].node.Some?
    ensures Calm(Drop(ns, t))
  {
    DropKeeps(ns, t);
    var ns' := Drop(ns, t);
    forall e, u | e in ns'.requests && u in ns'.requests[e]
      ensures u in ns'.channels
    {
      assert u in ns.requests[e];
    }
    forall e
      ensures !Starved(ns', e)
    {
      assert !Starved(ns, e);
      assert Waiting(ns', e) == Waiting(ns, e) && Pool(ns', e) == Pool(ns, e);
    }
  }

  lemma JoiningKeepsCalm(ns: NodesState, node: Node)
    requires Calm(ns)
    ensures Calm(Register(ns, node))
  {
    var known := ns.(nodes := ns.nodes[node.id := node]);
    KnownKeeps(ns, node);
    assert Calm(known) by {
      forall e ensures !Starved(known, e) {
        assert !Starved(ns, e);
        assert Waiting(known, e) == Waiting(ns, e) && Pool(known, e) == Pool(ns, e);
      }
    }
    OfferAllKeepsCalm(known, node.id, node.id in ns.nodes, node.capabilities);
  }

  lemma CalmAtFirst()
    ensures Calm(EmptyNodes())
  {
  }

  /** In a calm pool every ticket in a queue is waited for, so an endpoint has a queue or a pool, not both. */
  lemma QueueOrPool(ns: NodesState, e: string)
    requires Calm(ns)
    ensures Waiting(ns, e) == [] || Pool(ns, e) == []
  {
    assert !Starved(ns, e);
    if Waiting(ns, e) != [] {
      assert Waiting(ns, e)[0] in ns.requests[e];
    }
  }
}
