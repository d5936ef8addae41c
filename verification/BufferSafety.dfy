/** Every step of the buffer protocol keeps locks, references and tickets coherent. */
module BufferSafety {
  import opened BufferNodes
  import opened BufferProtocol

  // ----- counting -----

  function One(b: bool): nat { if b then 1 else 0 }

  lemma {:induction false} GrowersUpdate(threads: seq<Thread>, t: nat, th: Thread, n: nat)
    requires t < |threads|
    ensures Growers(threads[t := th], n) + One(threads[t].Expands(n)) == Growers(threads, n) + One(th.Expands(n))
  {
    var last := |threads| - 1;
    if t < last {
      GrowersUpdate(threads[..last], t, th, n);
      assert threads[t := th][..last] == threads[..last][t := th];
    } else {
      assert threads[t := th][..last] == threads[..last];
    }
  }

  lemma {:induction false} GrowerCounted(threads: seq<Thread>, t: nat, n: nat)
    requires t < |threads| && threads[t].Expands(n)
    ensures Growers(threads, n) > 0
  {
    if t < |threads| - 1 {
      GrowerCounted(threads[..|threads| - 1], t, n);
    }
  }

  /** A growing thread's node is pinned, and loaded unless it was closed. */
  lemma GrownIsPinned(p: Pool, t: nat)
    requires Shape(p) && ThreadsOk(p) && At(p, t) && p.threads[t].goal.ToExpand?
    requires forall n :: 0 <= n < |p.nodes| ==> NodeOk(p.nodes[n])
    ensures var node := p.nodes[p.threads[t].goal.node]; node.refs > 0 && (node.loaded || node.closed)
  {
    var n := p.threads[t].goal.node;
    assert ThreadOk(p, t) && p.threads[t].Expands(n);
    GrowerCounted(p.threads, t, n);
    assert NodeOk(p.nodes[n]);
  }

  // ----- a thread moves on, with no new ticket -----

  ghost predicate Advances(p: Pool, p': Pool, t: nat) {
    && At(p, t) && |p'.threads| == |p.threads| && p'.limit == p.limit && p'.time == p.time && SameSizes(p, p')
    && p'.threads == p.threads[t := p'.threads[t]]
    && p'.threads[t].Busy? && p'.threads[t].goal == p.threads[t].goal && p'.threads[t].since == p.threads[t].since
    && (forall tk :: p'.threads[t].InHand(tk) ==> p.threads[t].InHand(tk))
    && (p'.threads[t].stage.Swap? ==> p'.threads[t].stage.pre + p.threads[t].goal.size <= p.limit)
    && (p'.threads[t].stage.Adding? ==> p.threads[t].goal.ToExpand?)
  }

  ghost predicate SameSizes(p: Pool, p': Pool) {
    |p'.nodes| == |p.nodes| && |p'.unpinned| == |p.unpinned| && |p'.due| == |p.due|
  }

  lemma AdvanceShape(p: Pool, p': Pool, t: nat)
    requires Shape(p) && Advances(p, p', t) && |p'.nodes| == |p.nodes| && p'.queue == p.queue
    ensures Shape(p')
  {
    forall u, tk | 0 <= u < |p'.threads| && p'.threads[u].InHand(tk) ensures tk.node < |p'.nodes| {
      assert p.threads[u].InHand(tk);
    }
  }

  lemma AdvanceThreads(p: Pool, p': Pool, t: nat)
    requires Shape(p) && Shape(p') && ThreadsOk(p) && Advances(p, p', t) && p'.nodes == p.nodes
    ensures ThreadsOk(p')
  {
    forall u | 0 <= u < |p'.threads| ensures ThreadOk(p', u) {
      assert ThreadOk(p, u);
    }
    forall u, v, n | 0 <= u < v < |p'.threads| && p'.threads[u].Pins(n) ensures !p'.threads[v].Pins(n) {
      assert p.threads[u].Pins(n);
    }
    forall n | 0 <= n < |p'.nodes| ensures Growers(p'.threads, n) <= p'.nodes[n].refs {
      GrowersUpdate(p.threads, t, p'.threads[t], n);
      assert Growers(p.threads, n) <= p.nodes[n].refs;
    }
  }

  lemma AdvanceTickets(p: Pool, p': Pool, t: nat)
    requires Shape(p) && Shape(p') && TicketsOk(p) && OrderOk(p) && Advances(p, p', t) && p'.nodes == p.nodes && p'.queue == p.queue
    ensures TicketsOk(p') && OrderOk(p')
  {
    forall u, tk | 0 <= u < |p'.threads| && p'.threads[u].InHand(tk) ensures HandTicket(tk, p'.nodes, p'.queue) {
      assert p.threads[u].InHand(tk);
    }
    forall u, v, tk | 0 <= u < |p'.threads| && 0 <= v < |p'.threads| && p'.threads[u].InHand(tk) && p'.threads[u].goal.ToPin? && p'.threads[v].Pins(tk.node)
      ensures p'.threads[u].since < p'.threads[v].since
    {
      assert p.threads[u].InHand(tk) && p.threads[v].Pins(tk.node);
    }
  }

  /** Dropping a ticket is harmless if it is not the live ticket of an evictable node. */
  lemma AdvanceLive(p: Pool, p': Pool, t: nat)
    requires LiveOk(p) && Advances(p, p', t) && p'.nodes == p.nodes && p'.queue == p.queue
    requires forall tk :: p.threads[t].InHand(tk) && !p'.threads[t].InHand(tk) && tk.node < |p.nodes| ==>
               !p.nodes[tk.node].Unloadable() || p.nodes[tk.node].iter != tk.iter
    ensures LiveOk(p')
  {
    forall n | 0 <= n < |p'.nodes| && p'.nodes[n].Unloadable() ensures Offered(p', Ticket(n, p'.nodes[n].iter)) {
      var tk := Ticket(n, p.nodes[n].iter);
      assert Offered(p, tk);
      if tk !in p.queue {
        var u :| 0 <= u < |p.threads| && p.threads[u].InHand(tk);
        assert p'.threads[u].InHand(tk);
      }
    }
  }

  /** The steps that only move one thread along. */
  lemma AdvanceKeeps(p: Pool, p': Pool, t: nat)
    requires Coherent(p) && Advances(p, p', t) && p'.nodes == p.nodes && p'.queue == p.queue
    requires forall tk :: p.threads[t].InHand(tk) && !p'.threads[t].InHand(tk) && tk.node < |p.nodes| ==>
               !p.nodes[tk.node].Unloadable() || p.nodes[tk.node].iter != tk.iter
    ensures Coherent(p')
  {
    AdvanceShape(p, p', t);
    AdvanceThreads(p, p', t);
    AdvanceTickets(p, p', t);
    AdvanceLive(p, p', t);
  }

  // ----- a thread starts or stops -----

  /** Thread t goes between idle and busy and has no ticket before or after. */
  ghost predicate Switches(p: Pool, p': Pool, t: nat) {
    && t < |p.threads| && |p'.threads| == |p.threads| && p'.limit == p.limit && p.time <= p'.time && SameSizes(p, p')
    && p'.threads == p.threads[t := p'.threads[t]] && p'.queue == p.queue && p'.nodes == p.nodes
    && (forall tk :: !p.threads[t].InHand(tk) && !p'.threads[t].InHand(tk))
  }

  lemma SwitchTickets(p: Pool, p': Pool, t: nat)
    requires Shape(p) && Shape(p') && TicketsOk(p) && LiveOk(p) && Switches(p, p', t)
    ensures TicketsOk(p') && LiveOk(p')
  {
    forall u, tk | 0 <= u < |p'.threads| && p'.threads[u].InHand(tk) ensures HandTicket(tk, p'.nodes, p'.queue) {
      assert p.threads[u].InHand(tk);
    }
    forall n | 0 <= n < |p'.nodes| && p'.nodes[n].Unloadable() ensures Offered(p', Ticket(n, p'.nodes[n].iter)) {
      var tk := Ticket(n, p.nodes[n].iter);
      assert Offered(p, tk);
      if tk !in p.queue {
        var u :| 0 <= u < |p.threads| && p.threads[u].InHand(tk);
        assert p'.threads[u].InHand(tk);
      }
    }
  }

  lemma SwitchShape(p: Pool, p': Pool, t: nat)
    requires Shape(p) && Switches(p, p', t) && (p'.threads[t].Busy? ==> p'.threads[t].goal.node < |p.nodes|)
    ensures Shape(p')
  {
    forall u, tk | 0 <= u < |p'.threads| && p'.threads[u].InHand(tk) ensures tk.node < |p'.nodes| {
      assert p.threads[u].InHand(tk);
    }
  }

  lemma LeaveThreads(p: Pool, p': Pool, t: nat)
    requires Shape(p) && Shape(p') && ThreadsOk(p) && OrderOk(p) && Switches(p, p', t) && At(p, t) && p'.threads[t].Idle?
    ensures ThreadsOk(p') && OrderOk(p')
  {
    forall u | 0 <= u < |p'.threads| ensures ThreadOk(p', u) {
      assert ThreadOk(p, u);
    }
    forall n | 0 <= n < |p'.nodes| ensures Growers(p'.threads, n) <= p'.nodes[n].refs {
      GrowersUpdate(p.threads, t, Idle, n);
      assert Growers(p.threads, n) <= p.nodes[n].refs;
    }
    forall u, v, tk | 0 <= u < |p'.threads| && 0 <= v < |p'.threads| && p'.threads[u].InHand(tk) && p'.threads[u].goal.ToPin? && p'.threads[v].Pins(tk.node)
      ensures p'.threads[u].since < p'.threads[v].since
    {
      assert p.threads[u].InHand(tk) && p.threads[v].Pins(tk.node);
    }
  }

  /** A busy thread without a ticket goes idle. */
  lemma LeaveKeeps(p: Pool, p': Pool, t: nat)
    requires Coherent(p) && Switches(p, p', t) && At(p, t) && p'.threads[t].Idle?
    ensures Coherent(p')
  {
    SwitchShape(p, p', t);
    SwitchTickets(p, p', t);
    LeaveThreads(p, p', t);
  }

  lemma EnterThreads(p: Pool, p': Pool, t: nat)
    requires Shape(p) && Shape(p') && ThreadsOk(p) && Switches(p, p', t) && p.threads[t].Idle? && p'.threads[t].Busy?
    requires ThreadOk(p', t)
    requires forall n :: p'.threads[t].Pins(n) ==> Unlocked(p, n)
    requires forall n :: 0 <= n < |p.nodes| && p'.threads[t].Expands(n) ==> Growers(p.threads, n) < p.nodes[n].refs
    ensures ThreadsOk(p')
  {
    forall u | 0 <= u < |p'.threads| ensures ThreadOk(p', u) {
      assert ThreadOk(p, u);
    }
    forall u, v, n | 0 <= u < v < |p'.threads| && p'.threads[u].Pins(n) ensures !p'.threads[v].Pins(n) {
      assert u != t ==> p.threads[u].Pins(n);
    }
    forall n | 0 <= n < |p'.nodes| ensures Growers(p'.threads, n) <= p'.nodes[n].refs {
      GrowersUpdate(p.threads, t, p'.threads[t], n);
      assert Growers(p.threads, n) <= p.nodes[n].refs;
    }
  }

  /** A lock taken now is younger than every lock held by a thread with a ticket. */
  lemma EnterOrder(p: Pool, p': Pool, t: nat)
    requires Shape(p) && ThreadsOk(p) && OrderOk(p) && Switches(p, p', t) && p.threads[t].Idle? && p'.threads[t].Busy?
    requires p'.threads[t].goal.ToPin? ==> p'.threads[t].since == p.time
    ensures OrderOk(p')
  {
    forall u, v, tk | 0 <= u < |p'.threads| && 0 <= v < |p'.threads| && p'.threads[u].InHand(tk) && p'.threads[u].goal.ToPin? && p'.threads[v].Pins(tk.node)
      ensures p'.threads[u].since < p'.threads[v].since
    {
      assert p.threads[u].InHand(tk) && ThreadOk(p, u);
      assert v != t ==> p.threads[v].Pins(tk.node);
    }
  }

  lemma EnterKeeps(p: Pool, s: Step)
    requires Coherent(p) && Enabled(p, s) && (s.PinStart? || s.ExpandStart?)
    ensures Coherent(Next(p, s))
  {
    var p', t := Next(p, s), s.t;
    assert Switches(p, p', t);
    SwitchShape(p, p', t);
    SwitchTickets(p, p', t);
    assert NodeOk(p.nodes[s.n]) && Growers(p.threads, s.n) <= p.nodes[s.n].refs;
    assert ThreadOk(p', t);
    EnterThreads(p, p', t);
    EnterOrder(p, p', t);
  }

  // ----- a node changes -----

  /** Node n is replaced, under its lock, by one of the same iteration. */
  ghost predicate Replaces(p: Pool, p': Pool, n: nat) {
    && n < |p.nodes| && SameSizes(p, p') && p'.nodes == p.nodes[n := p'.nodes[n]]
    && p'.threads == p.threads && p'.queue == p.queue && p'.limit == p.limit && p'.time == p.time
    && p'.nodes[n].iter == p.nodes[n].iter && NodeOk(p'.nodes[n])
    && Unlocked(p, n) && Growers(p.threads, n) <= p'.nodes[n].refs
    && (p'.nodes[n].Unloadable() ==> p.nodes[n].Unloadable())
  }

  lemma ReplaceThreads(p: Pool, p': Pool, n: nat)
    requires Shape(p) && Shape(p') && ThreadsOk(p) && Replaces(p, p', n)
    ensures ThreadsOk(p')
  {
    forall u | 0 <= u < |p'.threads| ensures ThreadOk(p', u) {
      assert ThreadOk(p, u);
      if p.threads[u].Expands(n) {
        GrowerCounted(p.threads, u, n);
      }
    }
    forall m | 0 <= m < |p'.nodes| ensures Growers(p'.threads, m) <= p'.nodes[m].refs {
      assert Growers(p.threads, m) <= p.nodes[m].refs;
    }
  }

  lemma ReplaceTickets(p: Pool, p': Pool, n: nat)
    requires Shape(p) && Shape(p') && TicketsOk(p) && OrderOk(p) && Replaces(p, p', n)
    requires p'.nodes[n].loaded || p'.nodes[n].closed || forall i :: 0 <= i < |p.queue| ==> p.queue[i].node != n
    ensures TicketsOk(p') && OrderOk(p')
  {
    forall u, tk | 0 <= u < |p'.threads| && p'.threads[u].InHand(tk) ensures HandTicket(tk, p'.nodes, p'.queue) {
      assert HandTicket(tk, p.nodes, p.queue);
    }
  }

  lemma ReplaceLive(p: Pool, p': Pool, n: nat)
    requires LiveOk(p) && Replaces(p, p', n)
    ensures LiveOk(p')
  {
    forall m | 0 <= m < |p'.nodes| && p'.nodes[m].Unloadable() ensures Offered(p', Ticket(m, p'.nodes[m].iter)) {
      assert Offered(p, Ticket(m, p.nodes[m].iter));
    }
  }

  lemma ReplaceShape(p: Pool, p': Pool, n: nat)
    requires Shape(p) && Replaces(p, p', n)
    ensures Shape(p')
  {
  }

  lemma ReplaceKeeps(p: Pool, p': Pool, n: nat)
    requires Coherent(p) && Replaces(p, p', n)
    requires p'.nodes[n].loaded || p'.nodes[n].closed || forall i :: 0 <= i < |p.queue| ==> p.queue[i].node != n
    ensures Coherent(p')
  {
    ReplaceShape(p, p', n);
    ReplaceThreads(p, p', n);
    ReplaceTickets(p, p', n);
    ReplaceLive(p, p', n);
  }

  // ----- the steps, one by one -----

  lemma LoadKeeps(p: Pool, t: nat)
    requires Coherent(p) && QuotaOk(p) && Enabled(p, LoadQuota(t))
    ensures Coherent(Next(p, LoadQuota(t)))
  {
    assert ThreadOk(p, t);
    GrantIsSound(p.active, p.threads[t].goal.size, p.limit);
    assert Advances(p, Next(p, LoadQuota(t)), t);
    AdvanceKeeps(p, Next(p, LoadQuota(t)), t);
  }

  lemma SwapKeeps(p: Pool, t: nat)
    requires Coherent(p) && Enabled(p, SwapQuota(t))
    ensures Coherent(Next(p, SwapQuota(t)))
  {
    assert Advances(p, Next(p, SwapQuota(t)), t);
    AdvanceKeeps(p, Next(p, SwapQuota(t)), t);
  }

  lemma LookKeeps(p: Pool, s: Step)
    requires Coherent(p) && Enabled(p, s) && (s.AskClosed? || s.CompareIter?)
    ensures Coherent(Next(p, s))
  {
    var p', t := Next(p, s), s.t;
    TicketNode(p, t);
    assert NodeOk(p.nodes[p.threads[t].stage.tk.node]);
    DropTicket(p, p', t, p.threads[t].stage.tk);
  }

  lemma RegisterThreads(p: Pool, p': Pool, size: nat)
    requires Shape(p) && ThreadsOk(p) && Enabled(p, Register(size)) && p' == Next(p, Register(size)) && Shape(p')
    ensures ThreadsOk(p')
  {
    forall u | 0 <= u < |p'.threads| ensures ThreadOk(p', u) {
      assert ThreadOk(p, u);
    }
    NoGrowers(p, p.threads);
    forall n | 0 <= n < |p'.nodes| ensures Growers(p'.threads, n) <= p'.nodes[n].refs {
      assert n < |p.nodes| ==> Growers(p.threads, n) <= p.nodes[n].refs;
    }
  }

  lemma RegisterTickets(p: Pool, p': Pool, size: nat)
    requires Shape(p) && TicketsOk(p) && LiveOk(p) && Enabled(p, Register(size)) && p' == Next(p, Register(size))
    ensures Shape(p') && TicketsOk(p') && LiveOk(p')
  {
    forall u, tk | 0 <= u < |p'.threads| && p'.threads[u].InHand(tk) ensures HandTicket(tk, p'.nodes, p'.queue) {
      assert HandTicket(tk, p.nodes, p.queue);
    }
    forall n | 0 <= n < |p'.nodes| && p'.nodes[n].Unloadable() ensures Offered(p', Ticket(n, p'.nodes[n].iter)) {
      assert Offered(p, Ticket(n, p.nodes[n].iter));
    }
  }

  lemma RegisterKeeps(p: Pool, size: nat)
    requires Coherent(p) && Enabled(p, Register(size))
    ensures Coherent(Next(p, Register(size)))
  {
    var p' := Next(p, Register(size));
    RegisterTickets(p, p', size);
    RegisterThreads(p, p', size);
    SameThreadsOrder(p, p');
    forall n | 0 <= n < |p'.nodes| ensures NodeOk(p'.nodes[n]) {
      assert n < |p.nodes| ==> NodeOk(p.nodes[n]) && p'.nodes[n] == p.nodes[n];
    }
  }

  lemma SameThreadsOrder(p: Pool, p': Pool)
    requires OrderOk(p) && p'.threads == p.threads
    ensures OrderOk(p')
  {
  }

  lemma {:induction false} NoGrowers(p: Pool, threads: seq<Thread>)
    requires forall t :: 0 <= t < |threads| && threads[t].Busy? ==> threads[t].goal.node < |p.nodes|
    ensures Growers(threads, |p.nodes|) == 0
  {
    if threads != [] {
      NoGrowers(p, threads[..|threads| - 1]);
    }
  }

  /** Pinning a loaded node, releasing a pin that is not the last, closing. */
  lemma NodeStepKeeps(p: Pool, s: Step)
    requires Coherent(p) && Enabled(p, s) && (s.PinLoaded? || s.Close? || (s.Unpin? && p.nodes[s.n].refs > 1))
    ensures Coherent(Next(p, s))
  {
    var p', n := Next(p, s), s.n;
    assert NodeOk(p.nodes[n]) && Growers(p.threads, n) <= p.nodes[n].refs;
    assert Replaces(p, p', n);
    if s.Unpin? && !p'.nodes[n].loaded {
      assert p'.nodes[n].closed;
    }
    ReplaceKeeps(p, p', n);
  }

  /** The last unpin opens a new iteration and queues its ticket. */
  lemma NewTicket(nodes: seq<Node>, queue: seq<Ticket>, n: nat)
    requires QueueOk(nodes, queue) && n < |nodes| && NodeOk(nodes[n]) && nodes[n].refs == 1
    ensures QueueOk(nodes[n := nodes[n].(refs := 0, iter := nodes[n].iter + 1)], queue + [Ticket(n, nodes[n].iter + 1)])
  {
  }

  lemma HandAfterUnpin(tk: Ticket, nodes: seq<Node>, queue: seq<Ticket>, n: nat)
    requires HandTicket(tk, nodes, queue) && n < |nodes|
    ensures HandTicket(tk, nodes[n := nodes[n].(refs := 0, iter := nodes[n].iter + 1)], queue + [Ticket(n, nodes[n].iter + 1)])
  {
  }

  lemma HandsAfterUnpin(threads: seq<Thread>, nodes: seq<Node>, queue: seq<Ticket>, n: nat)
    requires n < |nodes| && forall t, tk :: 0 <= t < |threads| && threads[t].InHand(tk) ==> HandTicket(tk, nodes, queue)
    ensures forall t, tk :: 0 <= t < |threads| && threads[t].InHand(tk) ==>
              HandTicket(tk, nodes[n := nodes[n].(refs := 0, iter := nodes[n].iter + 1)], queue + [Ticket(n, nodes[n].iter + 1)])
  {
    forall t, tk | 0 <= t < |threads| && threads[t].InHand(tk)
      ensures HandTicket(tk, nodes[n := nodes[n].(refs := 0, iter := nodes[n].iter + 1)], queue + [Ticket(n, nodes[n].iter + 1)])
    {
      HandAfterUnpin(tk, nodes, queue, n);
    }
  }

  lemma LastUnpinShape(p: Pool, n: nat)
    requires Shape(p) && Enabled(p, Unpin(n)) && p.nodes[n].refs == 1
    ensures Shape(Next(p, Unpin(n)))
  {
    var p' := Next(p, Unpin(n));
    forall i | 0 <= i < |p'.queue| ensures p'.queue[i].node < |p'.nodes| {
      assert i < |p.queue| ==> p'.queue[i] == p.queue[i];
    }
  }

  lemma LastUnpinTickets(p: Pool, n: nat)
    requires Shape(p) && TicketsOk(p) && Enabled(p, Unpin(n)) && p.nodes[n].refs == 1 && NodeOk(p.nodes[n])
    ensures TicketsOk(Next(p, Unpin(n)))
  {
    NewTicket(p.nodes, p.queue, n);
    HandsAfterUnpin(p.threads, p.nodes, p.queue, n);
    SameTickets(Next(p, Unpin(n)), p.threads, p.nodes[n := p.nodes[n].(refs := 0, iter := p.nodes[n].iter + 1)],
                p.queue + [Ticket(n, p.nodes[n].iter + 1)]);
  }

  lemma SameTickets(p: Pool, threads: seq<Thread>, nodes: seq<Node>, queue: seq<Ticket>)
    requires p.threads == threads && p.nodes == nodes && p.queue == queue && QueueOk(nodes, queue)
    requires forall t, tk :: 0 <= t < |threads| && threads[t].InHand(tk) ==> HandTicket(tk, nodes, queue)
    ensures TicketsOk(p)
  {
  }

  lemma LastUnpinRest(p: Pool, n: nat)
    requires Shape(p) && ThreadsOk(p) && LiveOk(p) && OrderOk(p) && Enabled(p, Unpin(n)) && p.nodes[n].refs == 1 && Shape(Next(p, Unpin(n)))
    ensures ThreadsOk(Next(p, Unpin(n))) && LiveOk(Next(p, Unpin(n))) && OrderOk(Next(p, Unpin(n)))
  {
    var p' := Next(p, Unpin(n));
    forall u | 0 <= u < |p'.threads| ensures ThreadOk(p', u) {
      assert ThreadOk(p, u);
    }
    forall m | 0 <= m < |p'.nodes| ensures Growers(p'.threads, m) <= p'.nodes[m].refs {
      assert Growers(p.threads, m) <= p.nodes[m].refs;
    }
    forall m | 0 <= m < |p'.nodes| && p'.nodes[m].Unloadable() ensures Offered(p', Ticket(m, p'.nodes[m].iter)) {
      if m == n {
        assert p'.queue[|p.queue|] == Ticket(n, p'.nodes[n].iter);
      } else {
        assert Offered(p, Ticket(m, p.nodes[m].iter));
      }
    }
  }

  lemma UnpinKeeps(p: Pool, n: nat)
    requires Coherent(p) && Enabled(p, Unpin(n))
    ensures Coherent(Next(p, Unpin(n)))
  {
    if p.nodes[n].refs > 1 {
      NodeStepKeeps(p, Unpin(n));
    } else {
      assert NodeOk(p.nodes[n]);
      LastUnpinShape(p, n);
      LastUnpinTickets(p, n);
      LastUnpinRest(p, n);
    }
  }

  /** A ticket goes from the queue into a thread's hand. */
  lemma TakeQueue(nodes: seq<Node>, queue: seq<Ticket>)
    requires QueueOk(nodes, queue) && queue != []
    ensures QueueOk(nodes, queue[1..]) && HandTicket(queue[0], nodes, queue[1..])
  {
  }

  lemma TakeTickets(p: Pool, t: nat)
    requires Shape(p) && TicketsOk(p) && Enabled(p, DequeueTicket(t)) && p.queue != []
    ensures Shape(Next(p, DequeueTicket(t))) && TicketsOk(Next(p, DequeueTicket(t)))
  {
    var p' := Next(p, DequeueTicket(t));
    TakeQueue(p.nodes, p.queue);
    forall u, tk | 0 <= u < |p'.threads| && p'.threads[u].InHand(tk) ensures HandTicket(tk, p'.nodes, p'.queue) {
      if u == t {
        assert tk == p.queue[0];
      } else {
        assert HandTicket(tk, p.nodes, p.queue);
      }
    }
  }

  /** The ticket's node is not locked by a pin: an open node that is being pinned is not
      loaded, so it has no queued ticket. */
  lemma TakeOrder(p: Pool, t: nat)
    requires Shape(p) && ThreadsOk(p) && TicketsOk(p) && OrderOk(p) && Enabled(p, DequeueTicket(t)) && p.queue != []
    ensures OrderOk(Next(p, DequeueTicket(t)))
  {
    var p' := Next(p, DequeueTicket(t));
    forall u, v, tk | 0 <= u < |p'.threads| && 0 <= v < |p'.threads| && p'.threads[u].InHand(tk) && p'.threads[u].goal.ToPin? && p'.threads[v].Pins(tk.node)
      ensures p'.threads[u].since < p'.threads[v].since
    {
      assert p.threads[v].Pins(tk.node) && ThreadOk(p, v);
      assert u != t ==> p.threads[u].InHand(tk);
    }
  }

  lemma TakeLive(p: Pool, t: nat)
    requires Shape(p) && LiveOk(p) && Enabled(p, DequeueTicket(t)) && p.queue != []
    ensures LiveOk(Next(p, DequeueTicket(t)))
  {
    var p' := Next(p, DequeueTicket(t));
    forall n | 0 <= n < |p'.nodes| && p'.nodes[n].Unloadable() ensures Offered(p', Ticket(n, p'.nodes[n].iter)) {
      var tk := Ticket(n, p.nodes[n].iter);
      assert Offered(p, tk);
      if tk in p.queue {
        assert p.queue == [p.queue[0]] + p.queue[1..];
        assert tk == p.queue[0] ==> p'.threads[t].InHand(tk);
      } else {
        var u :| 0 <= u < |p.threads| && p.threads[u].InHand(tk);
        assert p'.threads[u].InHand(tk);
      }
    }
  }

  lemma TakeThreads(p: Pool, t: nat)
    requires Shape(p) && ThreadsOk(p) && Enabled(p, DequeueTicket(t)) && p.queue != [] && Shape(Next(p, DequeueTicket(t)))
    ensures ThreadsOk(Next(p, DequeueTicket(t)))
  {
    var p' := Next(p, DequeueTicket(t));
    forall u | 0 <= u < |p'.threads| ensures ThreadOk(p', u) {
      assert ThreadOk(p, u);
    }
    forall u, v, n | 0 <= u < v < |p'.threads| && p'.threads[u].Pins(n) ensures !p'.threads[v].Pins(n) {
      assert p.threads[u].Pins(n);
    }
    forall n | 0 <= n < |p'.nodes| ensures Growers(p'.threads, n) <= p'.nodes[n].refs {
      GrowersUpdate(p.threads, t, p'.threads[t], n);
      assert Growers(p.threads, n) <= p.nodes[n].refs;
    }
  }

  lemma DequeueKeeps(p: Pool, t: nat)
    requires Coherent(p) && Enabled(p, DequeueTicket(t))
    ensures Coherent(Next(p, DequeueTicket(t)))
  {
    if p.queue == [] {
      LeaveKeeps(p, Next(p, DequeueTicket(t)), t);
    } else {
      TakeTickets(p, t);
      TakeThreads(p, t);
      TakeOrder(p, t);
      TakeLive(p, t);
    }
  }

  /** No queued ticket is left for a node whose live ticket is in hand. */
  lemma LiveInHand(tk: Ticket, nodes: seq<Node>, queue: seq<Ticket>)
    requires QueueOk(nodes, queue) && HandTicket(tk, nodes, queue) && nodes[tk.node].iter == tk.iter
    ensures forall i :: 0 <= i < |queue| ==> queue[i].node != tk.node
  {
  }

  lemma UnloadKeeps(p: Pool, t: nat, tk: Ticket)
    requires Coherent(p) && At(p, t) && p.threads[t].InHand(tk) && tk.node < |p.nodes| && Unlocked(p, tk.node)
    requires p.nodes[tk.node].iter == tk.iter && p.nodes[tk.node].Unloadable()
    ensures Coherent(Unloaded(p, tk.node, p.nodes[tk.node].Unload()))
  {
    var p1 := Unloaded(p, tk.node, p.nodes[tk.node].Unload());
    assert HandTicket(tk, p.nodes, p.queue);
    assert Growers(p.threads, tk.node) <= p.nodes[tk.node].refs;
    LiveInHand(tk, p.nodes, p.queue);
    assert Replaces(p, p1, tk.node);
    ReplaceKeeps(p, p1, tk.node);
  }

  lemma EvictKeeps(p: Pool, t: nat)
    requires Coherent(p) && Enabled(p, TryEvict(t))
    ensures Coherent(Next(p, TryEvict(t)))
  {
    var tk := p.threads[t].stage.tk;
    TicketNode(p, t);
    if p.nodes[tk.node].iter == tk.iter && p.nodes[tk.node].Unloadable() {
      EvictedKeeps(p, t, tk);
    } else {
      DropTicket(p, Next(p, TryEvict(t)), t, tk);
    }
  }

  lemma EvictedKeeps(p: Pool, t: nat, tk: Ticket)
    requires Coherent(p) && Enabled(p, TryEvict(t)) && tk == p.threads[t].stage.tk && tk.node < |p.nodes|
    requires p.nodes[tk.node].iter == tk.iter && p.nodes[tk.node].Unloadable()
    ensures Coherent(Next(p, TryEvict(t)))
  {
    var p1 := Unloaded(p, tk.node, p.nodes[tk.node].Unload());
    UnloadKeeps(p, t, tk);
    assert Next(p, TryEvict(t)) == Stay(p1, t, Quota);
    DropTicket(p1, Stay(p1, t, Quota), t, tk);
  }

  /** A thread lets go of a ticket that is of no use, and goes back for quota or for the
      next ticket, or keeps it and moves on. */
  lemma DropTicket(p: Pool, p': Pool, t: nat, tk: Ticket)
    requires Coherent(p) && At(p, t) && p.threads[t].InHand(tk) && tk.node < |p.nodes|
    requires t < |p'.threads| && p'.threads[t].Busy? && p' == Stay(p, t, p'.threads[t].stage)
    requires p'.threads[t].InHand(tk) || !p.nodes[tk.node].Unloadable() || p.nodes[tk.node].iter != tk.iter
    requires p'.threads[t].stage.Quota? || p'.threads[t].stage.Take? || p'.threads[t].InHand(tk)
    ensures Coherent(p')
  {
    assert Advances(p, p', t);
    AdvanceKeeps(p, p', t);
  }

  lemma ReadKeeps(p: Pool, t: nat)
    requires Coherent(p) && Enabled(p, ReadSize(t))
    ensures Coherent(Next(p, ReadSize(t)))
  {
    assert Advances(p, Next(p, ReadSize(t)), t);
    AdvanceKeeps(p, Next(p, ReadSize(t)), t);
  }

  /** A thread puts its granted quota to use, or gives it back. */
  predicate Finishes(s: Step) {
    s.FinishPin? || s.RollbackExpand? || s.WriteSize?
  }

  /** The pool once the thread is done, with its node as before. */
  ghost function Left(p: Pool, s: Step): Pool
    requires Shape(p) && Enabled(p, s) && Finishes(s)
  {
    Next(p, s).(nodes := p.nodes)
  }

  lemma LeftKeeps(p: Pool, s: Step)
    requires Coherent(p) && Enabled(p, s) && Finishes(s)
    ensures Coherent(Left(p, s))
  {
    assert ThreadOk(p, s.t);
    LeaveKeeps(p, Left(p, s), s.t);
  }

  lemma FinishKeeps(p: Pool, s: Step)
    requires Coherent(p) && Enabled(p, s) && Finishes(s)
    ensures Coherent(Next(p, s))
  {
    LeftKeeps(p, s);
    if s.RollbackExpand? {
      assert Next(p, s) == Left(p, s);
    } else {
      var n := p.threads[s.t].goal.node;
      assert Growers(Left(p, s).threads, n) <= Left(p, s).nodes[n].refs;
      PutToUse(p, s);
      ReplaceKeeps(Left(p, s), Next(p, s), n);
    }
  }

  lemma PutToUse(p: Pool, s: Step)
    requires Shape(p) && ThreadsOk(p) && Enabled(p, s) && (s.FinishPin? || s.WriteSize?)
    requires forall n :: 0 <= n < |p.nodes| ==> NodeOk(p.nodes[n])
    requires Growers(Left(p, s).threads, p.threads[s.t].goal.node) <= p.nodes[p.threads[s.t].goal.node].refs
    ensures Replaces(Left(p, s), Next(p, s), p.threads[s.t].goal.node)
    ensures var node := Next(p, s).nodes[p.threads[s.t].goal.node]; node.loaded || node.closed
  {
    var n := p.threads[s.t].goal.node;
    assert ThreadOk(p, s.t) && NodeOk(p.nodes[n]);
    FreedByLeaving(p, s);
    assert Unlocked(Left(p, s), n);
    if s.WriteSize? {
      GrownIsPinned(p, s.t);
    }
  }

  /** Nobody else has the finished thread's node locked. */
  lemma FreedByLeaving(p: Pool, s: Step)
    requires Shape(p) && ThreadsOk(p) && Enabled(p, s) && Finishes(s)
    requires forall n :: 0 <= n < |p.nodes| ==> NodeOk(p.nodes[n])
    ensures Unlocked(p.(threads := p.threads[s.t := Idle]), p.threads[s.t].goal.node)
  {
    var n := p.threads[s.t].goal.node;
    forall u | 0 <= u < |p.threads| && u != s.t ensures !p.threads[u].Pins(n) {
      assert ThreadOk(p, u) && ThreadOk(p, s.t);
      if s.FinishPin? {
        assert p.threads[s.t].Pins(n);
      } else {
        GrownIsPinned(p, s.t);
      }
    }
  }

  // ----- all steps -----

  lemma StepCoherent(p: Pool, s: Step)
    requires Coherent(p) && QuotaOk(p) && Enabled(p, s)
    ensures Coherent(Next(p, s))
  {
    if s.Register? {
      RegisterKeeps(p, s.size);
    } else if s.PinLoaded? || s.Close? {
      NodeStepKeeps(p, s);
    } else if s.PinStart? || s.ExpandStart? {
      EnterKeeps(p, s);
    } else if s.Unpin? {
      UnpinKeeps(p, s.n);
    } else {
      ThreadStepCoherent(p, s);
    }
  }

  /** The steps of a busy thread. */
  lemma ThreadStepCoherent(p: Pool, s: Step)
    requires Coherent(p) && QuotaOk(p) && Enabled(p, s)
    requires !s.Register? && !s.PinLoaded? && !s.PinStart? && !s.ExpandStart? && !s.Unpin? && !s.Close?
    ensures Coherent(Next(p, s))
  {
    match s {
      case LoadQuota(t) => LoadKeeps(p, t);
      case SwapQuota(t) => SwapKeeps(p, t);
      case DequeueTicket(t) => DequeueKeeps(p, t);
      case AskClosed(_) => LookKeeps(p, s);
      case CompareIter(_) => LookKeeps(p, s);
      case TryEvict(t) => EvictKeeps(p, t);
      case ReadSize(t) => ReadKeeps(p, t);
      case FinishPin(_) => FinishKeeps(p, s);
      case RollbackExpand(_) => FinishKeeps(p, s);
      case WriteSize(_) => FinishKeeps(p, s);
    }
  }
}
