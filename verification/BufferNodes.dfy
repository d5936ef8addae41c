/** Buffer nodes, eviction tickets and the 64-bit quota arithmetic. */
module BufferNodes {
  import opened Wire
  import opened Sequences

  /** A node of the pool: how often it has been unpinned to zero is its iteration. */
  datatype Node = Node(loaded: bool, size: nat, iter: nat, closed: bool, refs: nat)
  {
    /** The memory it accounts for. */
    function Held(): nat { if loaded then size else 0 }
    /** The part of it that no eviction can free. */
    function Pinned(): nat { if loaded && refs > 0 then size else 0 }
    predicate Unloadable() { loaded && refs == 0 }
    function Unload(): Node { this.(loaded := false) }
  }

  /** An offer to evict a node, good while the node's iteration has not moved on. */
  datatype Ticket = Ticket(node: nat, iter: nat)

  const HELD := (n: Node) => n.Held()
  const PINNED := (n: Node) => n.Pinned()

  function LoadedSize(nodes: seq<Node>): nat { Total(nodes, HELD) }
  function PinnedSize(nodes: seq<Node>): nat { Total(nodes, PINNED) }

  // ----- quota -----

  /** The size after a request, as a 64-bit sum. */
  function AddU64(active: nat, size: nat): nat { (active + size) % UINT64 }

  /** Adding the complement of size - 1. */
  function ReturnU64(active: nat, size: nat): nat {
    (active + (UINT64 - 1 - (size - 1) % UINT64)) % UINT64
  }

  /** Returning quota subtracts, also for size 0. */
  lemma ReturnSubtracts(active: nat, size: nat)
    requires size <= active < UINT64
    ensures ReturnU64(active, size) == active - size
  {
    if size > 0 {
      assert (size - 1) % UINT64 == size - 1;
    }
  }

  /** A request is granted rightly, and refused rightly, exactly if the sum cannot wrap. */
  lemma GrantIsSound(active: nat, size: nat, limit: nat)
    requires active <= limit < UINT64 && size < UINT64
    ensures (AddU64(active, size) <= limit <==> active + size <= limit) <==>
              (active + size < UINT64 || active + size - UINT64 > limit)
    ensures limit + size < UINT64 ==> (AddU64(active, size) <= limit <==> active + size <= limit)
  {
  }

  // ----- eviction -----

  /** The effect of one dequeued ticket: a live one unloads its node. */
  function EvictOne(nodes: seq<Node>, tk: Ticket): (r: seq<Node>)
    ensures |r| == |nodes|
  {
    if tk.node < |nodes| && !nodes[tk.node].closed && nodes[tk.node].iter == tk.iter && nodes[tk.node].Unloadable()
    then nodes[tk.node := nodes[tk.node].Unload()]
    else nodes
  }

  function EvictAll(nodes: seq<Node>, tickets: seq<Ticket>): (r: seq<Node>)
    ensures |r| == |nodes|
  {
    if tickets == [] then nodes
    else EvictOne(EvictAll(nodes, tickets[..|tickets| - 1]), tickets[|tickets| - 1])
  }

  /** A batch of tickets unloads exactly the loaded, unpinned nodes with a live ticket in
      it, and changes nothing else. */
  lemma {:induction false} EvictAllExact(nodes: seq<Node>, tickets: seq<Ticket>, i: nat)
    requires i < |nodes|
    ensures EvictAll(nodes, tickets)[i] ==
              if nodes[i].Unloadable() && !nodes[i].closed && Ticket(i, nodes[i].iter) in tickets
              then nodes[i].Unload() else nodes[i]
  {
    if tickets != [] {
      var last := tickets[|tickets| - 1];
      EvictAllExact(nodes, tickets[..|tickets| - 1], i);
      assert tickets == tickets[..|tickets| - 1] + [last];
    }
  }

  lemma EvictAllSnoc(nodes: seq<Node>, tickets: seq<Ticket>, k: nat)
    requires k < |tickets|
    ensures EvictAll(nodes, tickets[..k + 1]) == EvictOne(EvictAll(nodes, tickets[..k]), tickets[k])
  {
    assert tickets[..k + 1][..k] == tickets[..k];
  }

  lemma EvictKeepsPinned(nodes: seq<Node>, tk: Ticket)
    ensures PinnedSize(EvictOne(nodes, tk)) == PinnedSize(nodes)
    ensures LoadedSize(EvictOne(nodes, tk)) ==
              LoadedSize(nodes) - if EvictOne(nodes, tk) == nodes then 0 else nodes[tk.node].size
  {
    if EvictOne(nodes, tk) != nodes {
      TotalUpdate(nodes, PINNED, tk.node, nodes[tk.node].Unload());
      TotalUpdate(nodes, HELD, tk.node, nodes[tk.node].Unload());
    }
  }

  lemma {:induction false} EvictAllPinned(nodes: seq<Node>, tickets: seq<Ticket>)
    ensures PinnedSize(EvictAll(nodes, tickets)) == PinnedSize(nodes)
  {
    if tickets != [] {
      EvictAllPinned(nodes, tickets[..|tickets| - 1]);
      EvictKeepsPinned(EvictAll(nodes, tickets[..|tickets| - 1]), tickets[|tickets| - 1]);
    }
  }

  // ----- tickets -----

  /** Tickets name nodes, are never newer than their node, come in the order of their
      iteration, and none is left for an open node that is not loaded. */
  ghost predicate QueueOk(nodes: seq<Node>, queue: seq<Ticket>) {
    && (forall i {:trigger queue[i].node} :: 0 <= i < |queue| ==> queue[i].node < |nodes| && queue[i].iter <= nodes[queue[i].node].iter)
    && (forall i, j {:trigger queue[i].node, queue[j].node} :: 0 <= i < j < |queue| && queue[i].node == queue[j].node ==> queue[i].iter < queue[j].iter)
    && (forall i {:trigger queue[i].node} :: 0 <= i < |queue| ==> nodes[queue[i].node].loaded || nodes[queue[i].node].closed)
  }

  /** The ticket is the one of the node's last unpin. */
  ghost predicate Current(nodes: seq<Node>, tk: Ticket) {
    tk.node < |nodes| && nodes[tk.node].iter == tk.iter
  }

  /** Current tickets are queued in the order of the last unpins, all of them before now. */
  ghost predicate UnpinOrder(nodes: seq<Node>, queue: seq<Ticket>, unpinned: seq<nat>, now: nat) {
    && |unpinned| == |nodes|
    && (forall i {:trigger Current(nodes, queue[i])} :: 0 <= i < |queue| && Current(nodes, queue[i]) ==> unpinned[queue[i].node] < now)
    && (forall i, j {:trigger Current(nodes, queue[i]), Current(nodes, queue[j])} :: 0 <= i < j < |queue| && Current(nodes, queue[i]) && Current(nodes, queue[j]) ==>
          unpinned[queue[i].node] < unpinned[queue[j].node])
  }

  lemma OrderOfSame(nodes: seq<Node>, nodes': seq<Node>, queue: seq<Ticket>, unpinned: seq<nat>, now: nat)
    requires UnpinOrder(nodes, queue, unpinned, now) && |nodes'| == |nodes|
    requires forall n :: 0 <= n < |nodes| ==> nodes'[n].iter == nodes[n].iter
    ensures UnpinOrder(nodes', queue, unpinned, now)
  {
    forall i | 0 <= i < |queue| ensures Current(nodes', queue[i]) <==> Current(nodes, queue[i]) {
    }
  }

  lemma OrderOfMore(nodes: seq<Node>, x: Node, queue: seq<Ticket>, unpinned: seq<nat>, now: nat)
    requires UnpinOrder(nodes, queue, unpinned, now) && QueueOk(nodes, queue)
    ensures UnpinOrder(nodes + [x], queue, unpinned + [0], now)
  {
    forall i | 0 <= i < |queue| ensures Current(nodes + [x], queue[i]) <==> Current(nodes, queue[i]) {
      assert (nodes + [x])[queue[i].node] == nodes[queue[i].node];
    }
  }

  lemma OrderOfTail(nodes: seq<Node>, queue: seq<Ticket>, unpinned: seq<nat>, now: nat)
    requires UnpinOrder(nodes, queue, unpinned, now) && queue != []
    ensures UnpinOrder(nodes, queue[1..], unpinned, now)
    ensures Current(nodes, queue[0]) ==> forall i :: 0 <= i < |queue[1..]| && Current(nodes, queue[1..][i]) ==>
              unpinned[queue[0].node] < unpinned[queue[1..][i].node]
  {
    forall i | 0 <= i < |queue[1..]| ensures queue[1..][i] == queue[i + 1] {
    }
  }

  /** The last unpin of a node: its older tickets are current no more, its new one is last. */
  lemma OrderOfUnpin(nodes: seq<Node>, queue: seq<Ticket>, unpinned: seq<nat>, now: nat, n: nat)
    requires UnpinOrder(nodes, queue, unpinned, now) && QueueOk(nodes, queue) && n < |nodes|
    ensures var node := nodes[n].(refs := 0, iter := nodes[n].iter + 1);
            UnpinOrder(nodes[n := node], queue + [Ticket(n, node.iter)], unpinned[n := now], now + 1)
  {
    var nodes' := nodes[n := nodes[n].(refs := 0, iter := nodes[n].iter + 1)];
    forall i | 0 <= i < |queue| ensures Current(nodes', queue[i]) <==> Current(nodes, queue[i]) && queue[i].node != n {
      assert queue[i].iter <= nodes[queue[i].node].iter;
    }
  }
}
