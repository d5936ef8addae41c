/** The buffer pool as one caller sees it: a quota, a table of nodes and a FIFO of
    eviction tickets. */
module NodeManager {
  import opened Wire
  import opened Sequences
  import opened BufferNodes

  /** Every node that could be evicted has a live ticket waiting. */
  ghost predicate LiveTickets(nodes: seq<Node>, queue: seq<Ticket>) {
    forall n {:trigger nodes[n].Unloadable()} :: 0 <= n < |nodes| && nodes[n].Unloadable() ==> Ticket(n, nodes[n].iter) in queue
  }

  /** Closed nodes are unloaded; pinned open nodes are loaded. */
  ghost predicate NodesOk(nodes: seq<Node>) {
    forall n :: 0 <= n < |nodes| ==>
      (nodes[n].closed ==> !nodes[n].loaded) && (nodes[n].refs > 0 && !nodes[n].closed ==> nodes[n].loaded)
  }

  lemma EvictKeepsNodes(nodes: seq<Node>, tk: Ticket)
    requires NodesOk(nodes)
    ensures NodesOk(EvictOne(nodes, tk))
  {
  }

  /** Dequeuing a ticket and acting on it keeps the queue in order. */
  lemma EvictKeepsQueue(nodes: seq<Node>, queue: seq<Ticket>)
    requires QueueOk(nodes, queue) && queue != []
    ensures QueueOk(EvictOne(nodes, queue[0]), queue[1..])
  {
    var nodes' := EvictOne(nodes, queue[0]);
    forall i | 0 <= i < |queue[1..]| ensures nodes'[queue[1..][i].node].loaded || nodes'[queue[1..][i].node].closed {
      assert queue[1..][i] == queue[i + 1];
      assert queue[i + 1].node == queue[0].node ==> queue[0].iter < queue[i + 1].iter;
    }
  }

  lemma EvictKeepsTickets(nodes: seq<Node>, queue: seq<Ticket>)
    requires LiveTickets(nodes, queue) && NodesOk(nodes) && queue != []
    ensures LiveTickets(EvictOne(nodes, queue[0]), queue[1..])
  {
    var nodes' := EvictOne(nodes, queue[0]);
    forall n | 0 <= n < |nodes'| && nodes'[n].Unloadable() ensures Ticket(n, nodes'[n].iter) in queue[1..] {
      assert nodes[n].Unloadable() && nodes'[n] == nodes[n];
      assert Ticket(n, nodes[n].iter) in queue;
      assert queue == [queue[0]] + queue[1..];
    }
  }

  /** With no ticket left, everything that is loaded is pinned. */
  lemma DrainedMeansPinned(nodes: seq<Node>)
    requires LiveTickets(nodes, [])
    ensures LoadedSize(nodes) == PinnedSize(nodes)
  {
    forall n | 0 <= n < |nodes| ensures HELD(nodes[n]) == PINNED(nodes[n]) {
      assert !nodes[n].Unloadable();
    }
    TotalMonotone(nodes, HELD, PINNED);
    TotalMonotone(nodes, PINNED, HELD);
  }

  lemma PinnedAtMostLoaded(nodes: seq<Node>)
    ensures PinnedSize(nodes) <= LoadedSize(nodes)
  {
    TotalMonotone(nodes, PINNED, HELD);
  }

  lemma AddNode(nodes: seq<Node>, queue: seq<Ticket>, x: Node)
    requires NodesOk(nodes) && QueueOk(nodes, queue) && LiveTickets(nodes, queue)
    requires !x.loaded && x.refs == 0
    ensures LoadedSize(nodes + [x]) == LoadedSize(nodes)
    ensures NodesOk(nodes + [x]) && QueueOk(nodes + [x], queue) && LiveTickets(nodes + [x], queue)
  {
    assert (nodes + [x])[..|nodes|] == nodes;
    forall n | 0 <= n < |nodes + [x]| && (nodes + [x])[n].Unloadable() ensures Ticket(n, (nodes + [x])[n].iter) in queue {
      assert (nodes + [x])[n] == nodes[n];
    }
  }

  /** One user less; without users a new iteration begins. */
  function Released(node: Node): Node
    requires node.refs > 0
  {
    if node.refs > 1 then node.(refs := node.refs - 1) else node.(refs := 0, iter := node.iter + 1)
  }

  /** Fewer users, but not none: nothing else changes. */
  lemma ReleaseKeeps(nodes: seq<Node>, queue: seq<Ticket>, n: nat)
    requires NodesOk(nodes) && QueueOk(nodes, queue) && LiveTickets(nodes, queue) && n < |nodes| && nodes[n].refs > 1
    ensures var nodes' := nodes[n := nodes[n].(refs := nodes[n].refs - 1)];
            LoadedSize(nodes') == LoadedSize(nodes) && NodesOk(nodes') && QueueOk(nodes', queue) && LiveTickets(nodes', queue)
  {
    var nodes' := nodes[n := nodes[n].(refs := nodes[n].refs - 1)];
    TotalUpdate(nodes, HELD, n, nodes[n].(refs := nodes[n].refs - 1));
    forall m | 0 <= m < |nodes'| && nodes'[m].Unloadable() ensures Ticket(m, nodes'[m].iter) in queue {
      assert nodes'[m] == nodes[m];
    }
  }

  /** The last user leaves: the node gets a new iteration and the ticket for it. */
  lemma TicketKeeps(nodes: seq<Node>, queue: seq<Ticket>, n: nat)
    requires QueueOk(nodes, queue) && LiveTickets(nodes, queue) && NodesOk(nodes) && n < |nodes| && nodes[n].refs == 1
    ensures var nodes' := nodes[n := nodes[n].(refs := 0, iter := nodes[n].iter + 1)];
            var queue' := queue + [Ticket(n, nodes[n].iter + 1)];
            LoadedSize(nodes') == LoadedSize(nodes) && QueueOk(nodes', queue') && LiveTickets(nodes', queue') && NodesOk(nodes')
  {
    var nodes' := nodes[n := nodes[n].(refs := 0, iter := nodes[n].iter + 1)];
    var queue' := queue + [Ticket(n, nodes[n].iter + 1)];
    TotalUpdate(nodes, HELD, n, nodes[n].(refs := 0, iter := nodes[n].iter + 1));
    forall m | 0 <= m < |nodes'| && nodes'[m].Unloadable() ensures Ticket(m, nodes'[m].iter) in queue' {
      if m == n {
        assert queue'[|queue|] == Ticket(n, nodes[n].iter + 1);
      } else {
        assert Ticket(m, nodes[m].iter) in queue;
      }
    }
  }

  /** The ticket the last user leaves behind. */
  function LeftTicket(node: Node, n: nat): seq<Ticket> {
    if node.refs == 1 then [Ticket(n, node.iter + 1)] else []
  }

  lemma UnpinKeeps(nodes: seq<Node>, queue: seq<Ticket>, n: nat)
    requires QueueOk(nodes, queue) && LiveTickets(nodes, queue) && NodesOk(nodes) && n < |nodes| && nodes[n].refs > 0
    ensures var nodes', queue' := nodes[n := Released(nodes[n])], queue + LeftTicket(nodes[n], n);
            LoadedSize(nodes') == LoadedSize(nodes) && QueueOk(nodes', queue') && LiveTickets(nodes', queue') && NodesOk(nodes')
  {
    if nodes[n].refs > 1 {
      ReleaseKeeps(nodes, queue, n);
      assert queue + [] == queue;
    } else {
      TicketKeeps(nodes, queue, n);
    }
  }

  /** k tickets were used up and none of them too many: before each, the request did not fit. */
  ghost predicate Evicted(nodes0: seq<Node>, queue0: seq<Ticket>, nodes: seq<Node>, queue: seq<Ticket>,
                          k: nat, size: nat, limit: nat) {
    && k <= |queue0| && queue == queue0[k..] && nodes == EvictAll(nodes0, queue0[..k])
    && forall j :: 0 <= j < k ==> LoadedSize(EvictAll(nodes0, queue0[..j])) + size > limit
  }

  lemma EvictedNext(nodes0: seq<Node>, queue0: seq<Ticket>, nodes: seq<Node>, queue: seq<Ticket>,
                    k: nat, size: nat, limit: nat)
    requires Evicted(nodes0, queue0, nodes, queue, k, size, limit) && queue != [] && LoadedSize(nodes) + size > limit
    ensures Evicted(nodes0, queue0, EvictOne(nodes, queue[0]), queue[1..], k + 1, size, limit)
  {
    EvictAllSnoc(nodes0, queue0, k);
  }

  lemma GrowKeeps(nodes: seq<Node>, queue: seq<Ticket>, n: nat, delta: nat)
    requires NodesOk(nodes) && QueueOk(nodes, queue) && LiveTickets(nodes, queue) && n < |nodes| && nodes[n].loaded
    ensures var nodes' := nodes[n := nodes[n].(size := nodes[n].size + delta)];
            LoadedSize(nodes') == LoadedSize(nodes) + delta && NodesOk(nodes') && QueueOk(nodes', queue) && LiveTickets(nodes', queue)
  {
    var nodes' := nodes[n := nodes[n].(size := nodes[n].size + delta)];
    TotalUpdate(nodes, HELD, n, nodes[n].(size := nodes[n].size + delta));
    forall m | 0 <= m < |nodes'| && nodes'[m].Unloadable() ensures Ticket(m, nodes'[m].iter) in queue {
      assert nodes[m].Unloadable();
    }
  }

  /** An open node has this id. */
  ghost predicate Named(nodes: seq<Node>, ids: seq<nat>, id: nat)
    requires |ids| == |nodes|
  {
    exists n :: 0 <= n < |nodes| && !nodes[n].closed && ids[n] == id
  }

  /** The registry holds exactly the ids of the open nodes, and no two of them share one. */
  ghost predicate RegistryOk(nodes: seq<Node>, ids: seq<nat>, registry: set<nat>) {
    && |ids| == |nodes|
    && (forall id :: id in registry <==> Named(nodes, ids, id))
    && (forall m, n :: 0 <= m < n < |nodes| && !nodes[m].closed && !nodes[n].closed ==> ids[m] != ids[n])
  }

  lemma RegistrySame(nodes: seq<Node>, nodes': seq<Node>, ids: seq<nat>, registry: set<nat>)
    requires RegistryOk(nodes, ids, registry) && |nodes'| == |nodes|
    requires forall n :: 0 <= n < |nodes| ==> nodes'[n].closed == nodes[n].closed
    ensures RegistryOk(nodes', ids, registry)
  {
    forall id ensures Named(nodes', ids, id) <==> Named(nodes, ids, id) {
      if n :| 0 <= n < |nodes| && !nodes[n].closed && ids[n] == id {
        assert !nodes'[n].closed;
      }
    }
  }

  lemma RegistryMore(nodes: seq<Node>, x: Node, ids: seq<nat>, registry: set<nat>, id: nat)
    requires RegistryOk(nodes, ids, registry) && id !in registry && !x.closed
    ensures RegistryOk(nodes + [x], ids + [id], registry + {id})
  {
    var nodes', ids' := nodes + [x], ids + [id];
    forall other ensures Named(nodes', ids', other) <==> Named(nodes, ids, other) || other == id {
      if Named(nodes, ids, other) {
        var n :| 0 <= n < |nodes| && !nodes[n].closed && ids[n] == other;
        assert nodes'[n] == nodes[n] && ids'[n] == ids[n];
      } else if other == id {
        assert nodes'[|nodes|] == x && ids'[|nodes|] == id;
      }
    }
    forall n | 0 <= n < |nodes| && !nodes[n].closed ensures ids[n] != id {
      assert Named(nodes, ids, ids[n]);
    }
  }

  lemma RegistryLess(nodes: seq<Node>, ids: seq<nat>, registry: set<nat>, n: nat)
    requires RegistryOk(nodes, ids, registry) && n < |nodes| && !nodes[n].closed
    ensures RegistryOk(nodes[n := nodes[n].(closed := true, loaded := false)], ids, registry - {ids[n]})
  {
    var nodes' := nodes[n := nodes[n].(closed := true, loaded := false)];
    forall id ensures Named(nodes', ids, id) <==> Named(nodes, ids, id) && id != ids[n] {
      if m :| 0 <= m < |nodes| && !nodes[m].closed && ids[m] == id && id != ids[n] {
        assert nodes'[m] == nodes[m];
      }
    }
  }

  /** A manager's state, with when each node was last released by its last user and the
      time of the next release. */
  datatype Book = Book(limit: nat, active: nat, nodes: seq<Node>, ids: seq<nat>, registry: set<nat>,
                       queue: seq<Ticket>, unpinned: seq<nat>, now: nat)

  /** The bookkeeping is right, with some quota granted but not yet used by a node. */
  ghost predicate Sound(b: Book, reserved: nat) {
    && b.limit < UINT64
    && b.active == LoadedSize(b.nodes) + reserved && b.active <= b.limit
    && NodesOk(b.nodes) && QueueOk(b.nodes, b.queue) && LiveTickets(b.nodes, b.queue)
    && UnpinOrder(b.nodes, b.queue, b.unpinned, b.now) && RegistryOk(b.nodes, b.ids, b.registry)
  }

  ghost predicate Empty(b: Book) {
    b.active == 0 && b.nodes == [] && b.ids == [] && b.registry == {} && b.queue == [] && b.unpinned == []
  }

  lemma EmptySound(b: Book)
    requires b.limit < UINT64 && Empty(b)
    ensures Sound(b, 0)
  {
  }

  function Registered(b: Book, id: nat, size: nat): Book {
    b.(nodes := b.nodes + [Node(false, size, 0, false, 0)], ids := b.ids + [id],
       registry := b.registry + {id}, unpinned := b.unpinned + [0])
  }

  lemma RegisterSound(b: Book, id: nat, size: nat)
    requires Sound(b, 0) && id !in b.registry
    ensures Sound(Registered(b, id, size), 0)
  {
    var x := Node(false, size, 0, false, 0);
    AddNode(b.nodes, b.queue, x);
    OrderOfMore(b.nodes, x, b.queue, b.unpinned, b.now);
    RegistryMore(b.nodes, x, b.ids, b.registry, id);
  }

  lemma RegistryTells(b: Book, id: nat)
    requires RegistryOk(b.nodes, b.ids, b.registry)
    ensures id !in b.registry <==> forall m :: 0 <= m < |b.nodes| && !b.nodes[m].closed ==> b.ids[m] != id
  {
    if m :| 0 <= m < |b.nodes| && !b.nodes[m].closed && b.ids[m] == id {
      assert Named(b.nodes, b.ids, id);
    }
  }

  lemma DequeueSound(b: Book)
    requires Sound(b, 0) && b.queue != []
    ensures var nodes := EvictOne(b.nodes, b.queue[0]);
            Sound(b.(active := LoadedSize(nodes), nodes := nodes, queue := b.queue[1..]), 0)
  {
    var tk, nodes := b.queue[0], EvictOne(b.nodes, b.queue[0]);
    EvictKeepsNodes(b.nodes, tk);
    EvictKeepsQueue(b.nodes, b.queue);
    EvictKeepsTickets(b.nodes, b.queue);
    EvictKeepsPinned(b.nodes, tk);
    RegistrySame(b.nodes, nodes, b.ids, b.registry);
    OrderOfTail(b.nodes, b.queue, b.unpinned, b.now);
    OrderOfSame(b.nodes, nodes, b.queue[1..], b.unpinned, b.now);
  }

  lemma RefSound(b: Book, n: nat, reserved: nat)
    requires Sound(b, reserved) && n < |b.nodes| && !b.nodes[n].closed
    requires reserved == if b.nodes[n].loaded then 0 else b.nodes[n].size
    ensures Sound(b.(nodes := b.nodes[n := b.nodes[n].(loaded := true, refs := b.nodes[n].refs + 1)]), 0)
  {
    var node := b.nodes[n].(loaded := true, refs := b.nodes[n].refs + 1);
    PinKeeps(b.nodes, b.queue, n);
    RegistrySame(b.nodes, b.nodes[n := node], b.ids, b.registry);
    OrderOfSame(b.nodes, b.nodes[n := node], b.queue, b.unpinned, b.now);
  }

  lemma PinKeeps(nodes: seq<Node>, queue: seq<Ticket>, n: nat)
    requires NodesOk(nodes) && QueueOk(nodes, queue) && LiveTickets(nodes, queue) && n < |nodes| && !nodes[n].closed
    ensures var nodes' := nodes[n := nodes[n].(loaded := true, refs := nodes[n].refs + 1)];
            && LoadedSize(nodes') + nodes[n].Held() == LoadedSize(nodes) + nodes[n].size
            && NodesOk(nodes') && QueueOk(nodes', queue) && LiveTickets(nodes', queue)
  {
    var nodes' := nodes[n := nodes[n].(loaded := true, refs := nodes[n].refs + 1)];
    TotalUpdate(nodes, HELD, n, nodes'[n]);
    forall m | 0 <= m < |nodes'| && nodes'[m].Unloadable() ensures Ticket(m, nodes'[m].iter) in queue {
      assert nodes[m].Unloadable();
    }
  }

  /** One user less; the last one leaves a fresh ticket, and the node counts as released now. */
  ghost function Unpinned(b: Book, n: nat): Book
    requires n < |b.nodes| && b.nodes[n].refs > 0 && |b.unpinned| == |b.nodes|
  {
    var b' := b.(nodes := b.nodes[n := Released(b.nodes[n])], queue := b.queue + LeftTicket(b.nodes[n], n));
    if b.nodes[n].refs > 1 then b' else b'.(unpinned := b.unpinned[n := b.now], now := b.now + 1)
  }

  lemma UnpinnedFields(b: Book, n: nat)
    requires n < |b.nodes| && b.nodes[n].refs > 0 && |b.unpinned| == |b.nodes|
    ensures var node, last := b.nodes[n], b.nodes[n].refs == 1;
            Unpinned(b, n) == Book(b.limit, b.active,
                                   b.nodes[n := node.(refs := node.refs - 1, iter := if last then node.iter + 1 else node.iter)], b.ids, b.registry,
                                   if last then b.queue + [Ticket(n, node.iter + 1)] else b.queue,
                                   if last then b.unpinned[n := b.now] else b.unpinned, if last then b.now + 1 else b.now)
  {
    assert b.queue + [] == b.queue;
  }

  lemma UnpinSound(b: Book, n: nat)
    requires Sound(b, 0) && n < |b.nodes| && b.nodes[n].refs > 0
    ensures Sound(Unpinned(b, n), 0)
  {
    var b' := Unpinned(b, n);
    UnpinKeeps(b.nodes, b.queue, n);
    RegistrySame(b.nodes, b'.nodes, b.ids, b.registry);
    assert UnpinOrder(b'.nodes, b'.queue, b'.unpinned, b'.now) by {
      UnpinnedOrder(b, n);
    }
  }

  lemma UnpinnedOrder(b: Book, n: nat)
    requires QueueOk(b.nodes, b.queue) && UnpinOrder(b.nodes, b.queue, b.unpinned, b.now) && n < |b.nodes| && b.nodes[n].refs > 0
    ensures UnpinOrder(Unpinned(b, n).nodes, Unpinned(b, n).queue, Unpinned(b, n).unpinned, Unpinned(b, n).now)
  {
    if b.nodes[n].refs > 1 {
      OrderOfSame(b.nodes, b.nodes[n := Released(b.nodes[n])], b.queue, b.unpinned, b.now);
      assert b.queue + [] == b.queue;
    } else {
      OrderOfUnpin(b.nodes, b.queue, b.unpinned, b.now, n);
    }
  }

  lemma GrowSound(b: Book, n: nat, delta: nat)
    requires Sound(b, delta) && n < |b.nodes| && b.nodes[n].loaded
    ensures Sound(b.(nodes := b.nodes[n := b.nodes[n].(size := b.nodes[n].size + delta)]), 0)
  {
    var nodes := b.nodes[n := b.nodes[n].(size := b.nodes[n].size + delta)];
    GrowKeeps(b.nodes, b.queue, n, delta);
    RegistrySame(b.nodes, nodes, b.ids, b.registry);
    OrderOfSame(b.nodes, nodes, b.queue, b.unpinned, b.now);
  }

  lemma CloseSound(b: Book, n: nat)
    requires Sound(b, 0) && n < |b.nodes| && !b.nodes[n].closed
    ensures b.nodes[n].Held() <= b.active
    ensures Sound(b.(active := b.active - b.nodes[n].Held(), nodes := b.nodes[n := b.nodes[n].(closed := true, loaded := false)],
                     registry := b.registry - {b.ids[n]}), 0)
  {
    CloseKeeps(b.nodes, b.queue, n);
    RegistryLess(b.nodes, b.ids, b.registry, n);
    OrderOfSame(b.nodes, b.nodes[n := b.nodes[n].(closed := true, loaded := false)], b.queue, b.unpinned, b.now);
  }

  class Manager {
    const limit: nat
    var active: nat
    var nodes: seq<Node>
    var ids: seq<nat>
    var registry: set<nat>
    var queue: seq<Ticket>
    ghost var unpinned: seq<nat>
    ghost var now: nat

    ghost function View(): Book
      reads this
    {
      Book(limit, active, nodes, ids, registry, queue, unpinned, now)
    }

    ghost predicate Valid()
      reads this
    {
      Sound(View(), 0)
    }

    constructor (maxsize: nat)
      requires maxsize < UINT64
      ensures Valid() && limit == maxsize && Empty(View())
    {
      limit, active, nodes, ids, registry, queue := maxsize, 0, [], [], {}, [];
      unpinned, now := [], 0;
      new;
      EmptySound(View());
    }

    /** A second node with the id of an open one is refused. */
    method RegisterNode(id: nat, size: nat) returns (ok: bool, n: nat)
      requires Valid()
      modifies this
      ensures Valid()
      ensures ok <==> forall m :: 0 <= m < old(|nodes|) && !old(nodes)[m].closed ==> old(ids)[m] != id
      ensures if ok then nodes == old(nodes) + [Node(false, size, 0, false, 0)] && ids == old(ids) + [id] && registry == old(registry) + {id}
              else View() == old(View())
      ensures queue == old(queue) && active == old(active) && now == old(now)
      ensures ok ==> n == old(|nodes|)
    {
      RegistryTells(View(), id);
      n := |nodes|;
      if id in registry {
        return false, n;
      }
      RegisterSound(View(), id, size);
      nodes, ids, registry := nodes + [Node(false, size, 0, false, 0)], ids + [id], registry + {id};
      unpinned := unpinned + [0];
      ok := true;
    }

    method ApplyQuota(size: nat) returns (ok: bool)
      requires active <= limit && limit + size < UINT64
      modifies this`active
      ensures ok <==> old(active) + size <= limit
      ensures active == if ok then old(active) + size else old(active)
    {
      var post := AddU64(active, size);
      if post > limit {
        return false;
      }
      active := post;
      ok := true;
    }

    method ReturnQuota(size: nat)
      requires size <= active < UINT64
      modifies this`active
      ensures active == old(active) - size
    {
      ReturnSubtracts(active, size);
      active := ReturnU64(active, size);
    }

    /** Evicts, the node released longest ago first, until the request fits. It fails exactly
        when the pinned nodes alone leave no room, and then everything unpinned is gone. */
    method MakeRoom(size: nat) returns (ok: bool, ghost k: nat)
      requires Valid() && limit + size < UINT64
      modifies this`active, this`nodes, this`queue
      ensures Sound(View(), if ok then size else 0)
      ensures ok <==> PinnedSize(old(nodes)) + size <= limit
      ensures Evicted(old(nodes), old(queue), nodes, queue, k, size, limit)
      ensures !ok ==> queue == []
      ensures forall a, b :: OlderPair(old(nodes), unpinned, a, b) && !nodes[b].loaded ==> !nodes[a].loaded
    {
      ghost var nodes0, queue0 := nodes, queue;
      k := 0;
      ok := ApplyQuota(size);
      while !ok
        invariant Sound(View(), if ok then size else 0)
        invariant Evicted(nodes0, queue0, nodes, queue, k, size, limit)
        invariant !ok ==> LoadedSize(nodes) + size > limit
        decreases |queue|, !ok
      {
        if queue == [] {
          break;
        }
        EvictedNext(nodes0, queue0, nodes, queue, k, size, limit);
        var evicted := Dequeue();
        k := k + 1;
        if evicted {
          ok := ApplyQuota(size);
        }
      }
      EvictionOutcome(old(View()), View(), k, size, ok);
    }

    /** Takes the oldest ticket and unloads its node if the ticket is live. */
    method Dequeue() returns (evicted: bool)
      requires Valid() && queue != []
      modifies this`active, this`nodes, this`queue
      ensures Valid() && queue == old(queue)[1..] && nodes == EvictOne(old(nodes), old(queue)[0])
      ensures active == LoadedSize(nodes)
      ensures !evicted ==> nodes == old(nodes)
    {
      var tk := queue[0];
      ghost var b := View();
      DequeueSound(b);
      EvictKeepsPinned(nodes, tk);
      TotalPart(nodes, HELD, tk.node);
      queue := queue[1..];
      evicted := false;
      if !nodes[tk.node].closed && nodes[tk.node].iter == tk.iter && nodes[tk.node].Unloadable() {
        ReturnQuota(nodes[tk.node].size);
        nodes := nodes[tk.node := nodes[tk.node].Unload()];
        evicted := true;
      }
      assert View() == b.(active := LoadedSize(nodes), nodes := EvictOne(b.nodes, tk), queue := b.queue[1..]);
    }

    /** Pins a node, loading it if needed; k tickets are used up for it, none too many. */
    method Pin(n: nat) returns (ok: bool, ghost k: nat)
      requires Valid() && n < |nodes| && !nodes[n].closed && limit + nodes[n].size < UINT64
      modifies this`active, this`nodes, this`queue
      ensures Valid() && |nodes| == old(|nodes|)
      ensures ok <==> old(nodes)[n].loaded || PinnedSize(old(nodes)) + old(nodes)[n].size <= limit
      ensures ok ==> nodes[n] == old(nodes)[n].(loaded := true, refs := old(nodes)[n].refs + 1)
      ensures old(nodes)[n].loaded ==> k == 0
      ensures k <= old(|queue|) && Evicted(old(nodes), old(queue), EvictAll(old(nodes), old(queue)[..k]), queue, k, old(nodes)[n].size, limit)
      ensures nodes == if ok then EvictAll(old(nodes), old(queue)[..k])[n := nodes[n]] else EvictAll(old(nodes), old(queue)[..k])
    {
      k := 0;
      if nodes[n].loaded {
        assert queue == old(queue)[0..] && EvictAll(nodes, old(queue)[..0]) == nodes;
        Ref(n, 0);
        return true, k;
      }
      ok, k := MakeRoom(nodes[n].size);
      EvictAllExact(old(nodes), old(queue)[..k], n);
      if ok {
        Ref(n, nodes[n].size);
      }
    }

    /** Loads the node into the quota reserved for it, if it is not loaded, and counts one
        more user. */
    method Ref(n: nat, ghost reserved: nat)
      requires Sound(View(), reserved) && n < |nodes| && !nodes[n].closed
      requires reserved == if nodes[n].loaded then 0 else nodes[n].size
      modifies this`nodes
      ensures Valid() && nodes == old(nodes)[n := old(nodes)[n].(loaded := true, refs := old(nodes)[n].refs + 1)]
    {
      ghost var b := View();
      RefSound(b, n, reserved);
      nodes := nodes[n := nodes[n].(loaded := true, refs := nodes[n].refs + 1)];
      assert View() == b.(nodes := nodes);
    }

    /** Releases one use; the last one leaves a fresh ticket at the end of the queue. */
    method Unpin(n: nat)
      requires Valid() && n < |nodes| && nodes[n].refs > 0
      modifies this`nodes, this`queue, this`unpinned, this`now
      ensures Valid()
      ensures var node, last := old(nodes)[n], old(nodes)[n].refs == 1;
              && nodes == old(nodes)[n := node.(refs := node.refs - 1, iter := if last then node.iter + 1 else node.iter)]
              && queue == (if last then old(queue) + [Ticket(n, node.iter + 1)] else old(queue))
              && unpinned == (if last then old(unpinned)[n := old(now)] else old(unpinned))
              && now == if last then old(now) + 1 else old(now)
    {
      UnpinnedFields(View(), n);
      Release(n);
    }

    method Release(n: nat)
      requires Valid() && n < |nodes| && nodes[n].refs > 0
      modifies this`nodes, this`queue, this`unpinned, this`now
      ensures Valid() && View() == Unpinned(old(View()), n)
    {
      var node := nodes[n];
      ghost var b := View();
      UnpinSound(b, n);
      UnpinnedFields(b, n);
      node := node.(refs := node.refs - 1);
      if node.refs == 0 {
        node := node.(iter := node.iter + 1);
        queue := queue + [Ticket(n, node.iter)];
        unpinned, now := unpinned[n := now], now + 1;
      }
      nodes := nodes[n := node];
      assert View() == Unpinned(b, n);
    }

    /** Grows a pinned node; k tickets are used up for it, none too many. The callback's failure
        gives the quota back. */
    method Expand(n: nat, delta: nat, callbackOk: bool) returns (ok: bool, ghost k: nat)
      requires Valid() && n < |nodes| && !nodes[n].closed && nodes[n].refs > 0 && limit + delta < UINT64
      modifies this`active, this`nodes, this`queue
      ensures Valid() && |nodes| == old(|nodes|)
      ensures ok <==> callbackOk && PinnedSize(old(nodes)) + delta <= limit
      ensures k <= old(|queue|) && Evicted(old(nodes), old(queue), EvictAll(old(nodes), old(queue)[..k]), queue, k, delta, limit)
      ensures var evicted := EvictAll(old(nodes), old(queue)[..k]);
              nodes == if ok then evicted[n := old(nodes)[n].(size := old(nodes)[n].size + delta)] else evicted
      ensures nodes[n] == if ok then old(nodes)[n].(size := old(nodes)[n].size + delta) else old(nodes)[n]
    {
      ok, k := RoomBeside(n, delta);
      if ok {
        ok := UseRoom(n, delta, callbackOk);
      }
    }

    /** Makes room without touching a node in use. */
    method RoomBeside(n: nat, size: nat) returns (ok: bool, ghost k: nat)
      requires Valid() && n < |nodes| && nodes[n].refs > 0 && !nodes[n].closed && limit + size < UINT64
      modifies this`active, this`nodes, this`queue
      ensures Sound(View(), if ok then size else 0) && |nodes| == old(|nodes|) && nodes[n] == old(nodes)[n] && nodes[n].loaded
      ensures ok <==> PinnedSize(old(nodes)) + size <= limit
      ensures Evicted(old(nodes), old(queue), nodes, queue, k, size, limit)
    {
      ok, k := MakeRoom(size);
      EvictAllExact(old(nodes), old(queue)[..k], n);
    }

    /** The callback runs in the room that was made. */
    method UseRoom(n: nat, delta: nat, callbackOk: bool) returns (ok: bool)
      requires Sound(View(), delta) && n < |nodes| && nodes[n].loaded
      modifies this`active, this`nodes
      ensures Valid() && ok == callbackOk
      ensures nodes == if ok then old(nodes)[n := old(nodes)[n].(size := old(nodes)[n].size + delta)] else old(nodes)
    {
      if callbackOk {
        CommitExpand(n, delta);
      } else {
        ReturnQuota(delta);
      }
      ok := callbackOk;
    }

    method CommitExpand(n: nat, delta: nat)
      requires Sound(View(), delta) && n < |nodes| && nodes[n].loaded
      modifies this`nodes
      ensures Valid() && nodes == old(nodes)[n := old(nodes)[n].(size := old(nodes)[n].size + delta)]
    {
      ghost var b := View();
      ghost var grown := b.(nodes := b.nodes[n := b.nodes[n].(size := b.nodes[n].size + delta)]);
      GrowSound(b, n, delta);
      nodes := nodes[n := nodes[n].(size := nodes[n].size + delta)];
      assert View() == grown;
    }

    /** Closing unloads the node, pinned or not, and frees its id; closing twice does nothing. */
    method Close(n: nat)
      requires Valid() && n < |nodes|
      modifies this`active, this`nodes, this`registry
      ensures Valid()
      ensures nodes == old(nodes)[n := old(nodes)[n].(closed := true, loaded := false)]
      ensures registry == if old(nodes)[n].closed then old(registry) else old(registry) - {ids[n]}
    {
      var node := nodes[n];
      if node.closed {
        assert nodes == nodes[n := node.(closed := true, loaded := false)];
        return;
      }
      CloseSound(View(), n);
      if node.loaded {
        ReturnQuota(node.size);
      }
      nodes, registry := nodes[n := node.(closed := true, loaded := false)], registry - {ids[n]};
    }
  }

  /** What the end of the eviction loop means. */
  lemma EvictionOutcome(b0: Book, b: Book, k: nat, size: nat, ok: bool)
    requires Sound(b0, 0) && Evicted(b0.nodes, b0.queue, b.nodes, b.queue, k, size, b.limit)
    requires LiveTickets(b.nodes, b.queue)
    requires if ok then LoadedSize(b.nodes) + size <= b.limit else b.queue == [] && LoadedSize(b.nodes) + size > b.limit
    ensures ok <==> PinnedSize(b0.nodes) + size <= b.limit
    ensures forall x, y :: OlderPair(b0.nodes, b0.unpinned, x, y) && !b.nodes[y].loaded ==> !b.nodes[x].loaded
  {
    EvictAllPinned(b0.nodes, b0.queue[..k]);
    EvictsOldestFirst(b0.nodes, b0.queue, b0.unpinned, b0.now, k);
    if ok {
      PinnedAtMostLoaded(b.nodes);
    } else {
      DrainedMeansPinned(b.nodes);
    }
  }

  lemma CloseKeeps(nodes: seq<Node>, queue: seq<Ticket>, n: nat)
    requires NodesOk(nodes) && QueueOk(nodes, queue) && LiveTickets(nodes, queue) && n < |nodes|
    ensures var nodes' := nodes[n := nodes[n].(closed := true, loaded := false)];
            LoadedSize(nodes') == LoadedSize(nodes) - nodes[n].Held() && NodesOk(nodes') && QueueOk(nodes', queue) && LiveTickets(nodes', queue)
    ensures nodes[n].Held() <= LoadedSize(nodes)
  {
    var nodes' := nodes[n := nodes[n].(closed := true, loaded := false)];
    TotalUpdate(nodes, HELD, n, nodes'[n]);
    TotalPart(nodes, HELD, n);
    forall m | 0 <= m < |nodes'| && nodes'[m].Unloadable() ensures Ticket(m, nodes'[m].iter) in queue {
      assert nodes[m].Unloadable();
    }
  }

  /** Both nodes can be evicted, and a was released before b. */
  ghost predicate OlderPair(nodes: seq<Node>, unpinned: seq<nat>, a: int, b: int) {
    && |unpinned| == |nodes| && 0 <= a < |nodes| && 0 <= b < |nodes|
    && nodes[a].Unloadable() && nodes[b].Unloadable() && unpinned[a] < unpinned[b]
  }

  /** Eviction order: of two evictable nodes the one whose last unpin came first goes first. */
  lemma EvictsLeastRecentlyUnpinned(nodes: seq<Node>, queue: seq<Ticket>, unpinned: seq<nat>, now: nat, k: nat, a: nat, b: nat)
    requires NodesOk(nodes) && QueueOk(nodes, queue) && LiveTickets(nodes, queue) && UnpinOrder(nodes, queue, unpinned, now)
    requires k <= |queue| && OlderPair(nodes, unpinned, a, b)
    ensures !EvictAll(nodes, queue[..k])[b].loaded ==> !EvictAll(nodes, queue[..k])[a].loaded
  {
    EvictAllExact(nodes, queue[..k], a);
    EvictAllExact(nodes, queue[..k], b);
    if Ticket(b, nodes[b].iter) in queue[..k] {
      var j :| 0 <= j < k && queue[j] == Ticket(b, nodes[b].iter);
      var i :| 0 <= i < |queue| && queue[i] == Ticket(a, nodes[a].iter);
      assert Current(nodes, queue[i]) && Current(nodes, queue[j]);
      assert i < j;
      assert queue[..k][i] == queue[i];
    }
  }

  lemma EvictsOldestFirst(nodes: seq<Node>, queue: seq<Ticket>, unpinned: seq<nat>, now: nat, k: nat)
    requires NodesOk(nodes) && QueueOk(nodes, queue) && LiveTickets(nodes, queue) && UnpinOrder(nodes, queue, unpinned, now)
    requires k <= |queue|
    ensures forall a, b :: OlderPair(nodes, unpinned, a, b) && !EvictAll(nodes, queue[..k])[b].loaded ==>
              !EvictAll(nodes, queue[..k])[a].loaded
  {
    forall a, b | OlderPair(nodes, unpinned, a, b) && !EvictAll(nodes, queue[..k])[b].loaded
      ensures !EvictAll(nodes, queue[..k])[a].loaded
    {
      EvictsLeastRecentlyUnpinned(nodes, queue, unpinned, now, k, a, b);
    }
  }
}
