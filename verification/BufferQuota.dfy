/** Quota and eviction order in every interleaving of the buffer protocol. */
module BufferQuota {
  import opened Sequences
  import opened BufferNodes
  import opened BufferProtocol
  import opened BufferSafety

  // ----- eviction order -----

  /** No node gets a new iteration, no ticket changes hands, and threads may drop tickets. */
  ghost predicate Quiet(p: Pool, p': Pool) {
    && |p'.nodes| == |p.nodes| && p'.queue == p.queue && p'.unpinned == p.unpinned && p.time <= p'.time
    && (forall n :: 0 <= n < |p.nodes| ==> p'.nodes[n].iter == p.nodes[n].iter)
    && |p'.threads| == |p.threads|
    && (forall t, tk :: 0 <= t < |p.threads| && p'.threads[t].InHand(tk) ==> p.threads[t].InHand(tk))
  }

  lemma LaterOrder(nodes: seq<Node>, queue: seq<Ticket>, unpinned: seq<nat>, now: nat, later: nat)
    requires UnpinOrder(nodes, queue, unpinned, now) && now <= later
    ensures UnpinOrder(nodes, queue, unpinned, later)
  {
  }

  lemma QuietAhead(p: Pool, p': Pool, tk: Ticket)
    requires Quiet(p, p') && |p.unpinned| == |p.nodes| && tk.node < |p.nodes| && Ahead(p, tk)
    ensures Ahead(p', tk)
  {
    forall i | 0 <= i < |p'.queue| && Current(p'.nodes, p'.queue[i]) ensures p'.unpinned[tk.node] < p'.unpinned[p'.queue[i].node] {
      assert Current(p.nodes, p.queue[i]);
    }
  }

  lemma QuietUnpins(p: Pool, p': Pool)
    requires UnpinsOk(p) && Quiet(p, p')
    ensures UnpinsOk(p')
  {
    OrderOfSame(p.nodes, p'.nodes, p.queue, p.unpinned, p.time);
    LaterOrder(p'.nodes, p.queue, p.unpinned, p.time, p'.time);
    forall t, tk | 0 <= t < |p'.threads| && p'.threads[t].InHand(tk) && Current(p'.nodes, tk) ensures Ahead(p', tk) {
      assert p.threads[t].InHand(tk) && Current(p.nodes, tk);
      QuietAhead(p, p', tk);
    }
  }

  lemma RegisterUnpins(p: Pool, size: nat)
    requires Shape(p) && TicketsOk(p) && UnpinsOk(p) && Enabled(p, Register(size))
    ensures UnpinsOk(Next(p, Register(size)))
  {
    var p' := Next(p, Register(size));
    OrderOfMore(p.nodes, Node(false, size, 0, false, 0), p.queue, p.unpinned, p.time);
    forall t, tk | 0 <= t < |p'.threads| && p'.threads[t].InHand(tk) && Current(p'.nodes, tk) ensures Ahead(p', tk) {
      assert p.threads[t].InHand(tk) && Current(p.nodes, tk);
      forall i | 0 <= i < |p'.queue| && Current(p'.nodes, p'.queue[i]) ensures p'.unpinned[tk.node] < p'.unpinned[p'.queue[i].node] {
        assert Current(p.nodes, p.queue[i]);
      }
    }
  }

  lemma TakeUnpins(p: Pool, t: nat)
    requires Shape(p) && UnpinsOk(p) && Enabled(p, DequeueTicket(t)) && p.queue != []
    ensures UnpinsOk(Next(p, DequeueTicket(t)))
  {
    var p' := Next(p, DequeueTicket(t));
    OrderOfTail(p.nodes, p.queue, p.unpinned, p.time);
    forall u, tk | 0 <= u < |p'.threads| && p'.threads[u].InHand(tk) && Current(p'.nodes, tk) ensures Ahead(p', tk) {
      if u == t {
        assert tk == p.queue[0];
      } else {
        assert p.threads[u].InHand(tk);
        forall i | 0 <= i < |p'.queue| && Current(p'.nodes, p'.queue[i]) ensures p'.unpinned[tk.node] < p'.unpinned[p'.queue[i].node] {
          assert p'.queue[i] == p.queue[i + 1];
        }
      }
    }
  }

  lemma LastUnpinUnpins(p: Pool, n: nat)
    requires Shape(p) && TicketsOk(p) && UnpinsOk(p) && Enabled(p, Unpin(n)) && p.nodes[n].refs == 1
    ensures UnpinsOk(Next(p, Unpin(n)))
  {
    var p' := Next(p, Unpin(n));
    OrderOfUnpin(p.nodes, p.queue, p.unpinned, p.time, n);
    forall t, tk | 0 <= t < |p'.threads| && p'.threads[t].InHand(tk) && Current(p'.nodes, tk) ensures Ahead(p', tk) {
      assert HandTicket(tk, p.nodes, p.queue);
      StillCurrent(p.nodes, n, tk);
      UnpinAhead(p, n, tk);
    }
  }

  lemma StillCurrent(nodes: seq<Node>, n: nat, tk: Ticket)
    requires n < |nodes| && tk.node < |nodes| && tk.iter <= nodes[tk.node].iter
    requires Current(nodes[n := nodes[n].(refs := 0, iter := nodes[n].iter + 1)], tk)
    ensures tk.node != n && Current(nodes, tk)
  {
  }

  lemma UnpinAhead(p: Pool, n: nat, tk: Ticket)
    requires Shape(p) && QueueOk(p.nodes, p.queue) && Enabled(p, Unpin(n)) && p.nodes[n].refs == 1
    requires tk.node < |p.nodes| && tk.node != n && Ahead(p, tk)
    ensures Ahead(Next(p, Unpin(n)), tk)
  {
    var p' := Next(p, Unpin(n));
    forall i | 0 <= i < |p'.queue| && Current(p'.nodes, p'.queue[i]) ensures p'.unpinned[tk.node] < p'.unpinned[p'.queue[i].node] {
      if i < |p.queue| {
        assert p'.queue[i] == p.queue[i] && p.queue[i].iter <= p.nodes[p.queue[i].node].iter;
        assert Current(p.nodes, p.queue[i]);
      }
    }
  }

  lemma StepUnpins(p: Pool, s: Step)
    requires Shape(p) && TicketsOk(p) && UnpinsOk(p) && Enabled(p, s)
    ensures UnpinsOk(Next(p, s))
  {
    if s.Register? {
      RegisterUnpins(p, s.size);
    } else if s.DequeueTicket? && p.queue != [] {
      TakeUnpins(p, s.t);
    } else if s.Unpin? && p.nodes[s.n].refs == 1 {
      LastUnpinUnpins(p, s.n);
    } else {
      StepIsQuiet(p, s);
      QuietUnpins(p, Next(p, s));
    }
  }

  lemma StepIsQuiet(p: Pool, s: Step)
    requires Shape(p) && Enabled(p, s) && !s.Register? && !(s.DequeueTicket? && p.queue != []) && !(s.Unpin? && p.nodes[s.n].refs == 1)
    ensures Quiet(p, Next(p, s))
  {
    if s.AskClosed? || s.CompareIter? || s.TryEvict? {
      LookIsQuiet(p, s);
    } else if s.PinLoaded? || s.Unpin? || s.Close? {
      NodeIsQuiet(p, s);
    } else {
      ThreadIsQuiet(p, s);
    }
  }

  lemma LookIsQuiet(p: Pool, s: Step)
    requires Shape(p) && Enabled(p, s) && (s.AskClosed? || s.CompareIter? || s.TryEvict?)
    ensures Quiet(p, Next(p, s))
  {
    TicketNode(p, s.t);
  }

  lemma NodeIsQuiet(p: Pool, s: Step)
    requires Shape(p) && Enabled(p, s) && (s.PinLoaded? || s.Close? || (s.Unpin? && p.nodes[s.n].refs != 1))
    ensures Quiet(p, Next(p, s))
  {
  }

  lemma ThreadIsQuiet(p: Pool, s: Step)
    requires Shape(p) && Enabled(p, s) && !(s.DequeueTicket? && p.queue != [])
    requires !s.Register? && !s.PinLoaded? && !s.Unpin? && !s.Close? && !s.AskClosed? && !s.CompareIter? && !s.TryEvict?
    ensures Quiet(p, Next(p, s))
  {
  }

  // ----- what nodes were given -----

  ghost predicate AddsUpTo(th: Thread, nodes: seq<Node>, due: seq<nat>)
    requires |due| == |nodes|
  {
    th.Busy? && th.stage.Adding? ==>
      th.goal.node < |nodes| && (nodes[th.goal.node].closed || th.stage.pre <= due[th.goal.node])
  }

  lemma DuesParts(p: Pool)
    requires Shape(p)
    ensures DuesOk(p) <==>
              && p.leaked >= 0
              && (forall n :: 0 <= n < |p.nodes| ==> DueOk(p.nodes[n], p.due[n]))
              && (forall t :: 0 <= t < |p.threads| ==> AddsUpTo(p.threads[t], p.nodes, p.due))
  {
    if forall t :: 0 <= t < |p.threads| ==> AddsUpTo(p.threads[t], p.nodes, p.due) {
      forall t | 0 <= t < |p.threads| && p.threads[t].Busy? && p.threads[t].stage.Adding?
        ensures p.nodes[p.threads[t].goal.node].closed || p.threads[t].stage.pre <= p.due[p.threads[t].goal.node]
      {
        assert AddsUpTo(p.threads[t], p.nodes, p.due);
      }
    }
  }

  /** Nobody is about to write the size of a node without growers. */
  lemma NotGrown(p: Pool, n: nat, t: nat)
    requires Shape(p) && ThreadsOk(p) && n < |p.nodes| && Growers(p.threads, n) == 0 && t < |p.threads|
    ensures p.threads[t].Busy? && p.threads[t].stage.Adding? ==> p.threads[t].goal.node != n
  {
    assert ThreadOk(p, t);
    if p.threads[t].Expands(n) {
      GrowerCounted(p.threads, t, n);
    }
  }

  /** A node is closed, or unloaded while nobody grows it. */
  lemma UnloadDues(p: Pool, n: nat, node: Node)
    requires Shape(p) && ThreadsOk(p) && DuesOk(p) && n < |p.nodes| && (node.closed || Growers(p.threads, n) == 0)
    requires p.nodes[n].loaded && !node.loaded
    ensures DuesOk(Unloaded(p, n, node))
  {
    var p' := Unloaded(p, n, node);
    assert DueOk(p.nodes[n], p.due[n]);
    forall m | 0 <= m < |p'.nodes| ensures DueOk(p'.nodes[m], p'.due[m]) {
      assert DueOk(p.nodes[m], p.due[m]);
    }
    forall t | 0 <= t < |p'.threads| && p'.threads[t].Busy? && p'.threads[t].stage.Adding?
      ensures p'.nodes[p'.threads[t].goal.node].closed || p'.threads[t].stage.pre <= p'.due[p'.threads[t].goal.node]
    {
      if !node.closed {
        NotGrown(p, n, t);
      }
    }
  }

  ghost predicate Alike(node: Node, node': Node) {
    node'.loaded == node.loaded && node'.size == node.size && (node.closed ==> node'.closed)
  }

  /** Only what threads do changes: none starts to add. */
  lemma ThreadDues(p: Pool, p': Pool)
    requires Shape(p) && Shape(p') && DuesOk(p) && p'.due == p.due && p'.leaked == p.leaked && |p'.nodes| == |p.nodes|
    requires forall n :: 0 <= n < |p.nodes| ==> Alike(p.nodes[n], p'.nodes[n])
    requires |p'.threads| == |p.threads| && forall t :: 0 <= t < |p.threads| ==> p'.threads[t] == p.threads[t] || AddsUpTo(p'.threads[t], p.nodes, p.due)
    ensures DuesOk(p')
  {
    DuesParts(p);
    forall n | 0 <= n < |p'.nodes| ensures DueOk(p'.nodes[n], p'.due[n]) {
      assert DueOk(p.nodes[n], p.due[n]);
    }
    forall t | 0 <= t < |p'.threads| ensures AddsUpTo(p'.threads[t], p'.nodes, p'.due) {
      assert AddsUpTo(p.threads[t], p.nodes, p.due);
    }
    DuesParts(p');
  }

  lemma RegisterDues(p: Pool, size: nat)
    requires Shape(p) && DuesOk(p) && Enabled(p, Register(size)) && Shape(Next(p, Register(size)))
    ensures DuesOk(Next(p, Register(size)))
  {
    var p' := Next(p, Register(size));
    forall n | 0 <= n < |p'.nodes| ensures DueOk(p'.nodes[n], p'.due[n]) {
      assert n < |p.nodes| ==> DueOk(p.nodes[n], p.due[n]);
    }
  }

  /** A granted thread puts its quota into its node: the node is given that much more, unless
      it was closed meanwhile. */
  lemma UseDues(p: Pool, s: Step)
    requires Shape(p) && ThreadsOk(p) && DuesOk(p) && Enabled(p, s) && (s.FinishPin? || s.WriteSize?)
    requires forall n :: 0 <= n < |p.nodes| ==> NodeOk(p.nodes[n])
    requires Shape(Next(p, s))
    ensures DuesOk(Next(p, s))
    ensures Used(p, s, Next(p, s))
  {
    var p', n := Next(p, s), p.threads[s.t].goal.node;
    assert ThreadOk(p, s.t) && DueOk(p.nodes[n], p.due[n]);
    if s.WriteSize? {
      GrownIsPinned(p, s.t);
    }
    forall m | 0 <= m < |p'.nodes| ensures DueOk(p'.nodes[m], p'.due[m]) {
      assert DueOk(p.nodes[m], p.due[m]);
    }
  }

  ghost predicate Used(p: Pool, s: Step, p': Pool)
    requires Shape(p) && Enabled(p, s) && (s.FinishPin? || s.WriteSize?)
  {
    var n, delta := p.threads[s.t].goal.node, p.threads[s.t].goal.size;
    || (p'.due == p.due[n := p.due[n] + delta] && p'.leaked == p.leaked)
    || (p'.due == p.due && p'.leaked == p.leaked + delta)
  }

  lemma StepDues(p: Pool, s: Step)
    requires Shape(p) && ThreadsOk(p) && DuesOk(p) && Enabled(p, s) && Shape(Next(p, s))
    requires forall n :: 0 <= n < |p.nodes| ==> NodeOk(p.nodes[n])
    ensures DuesOk(Next(p, s))
  {
    if s.Register? {
      RegisterDues(p, s.size);
    } else if s.FinishPin? || s.WriteSize? {
      UseDues(p, s);
    } else if s.TryEvict? {
      EvictDues(p, s.t);
    } else if s.Close? && p.nodes[s.n].loaded {
      UnloadDues(p, s.n, p.nodes[s.n].(closed := true, loaded := false));
    } else if s.ReadSize? {
      ReadDues(p, s.t);
    } else {
      OtherDues(p, s);
    }
  }

  lemma EvictDues(p: Pool, t: nat)
    requires Shape(p) && ThreadsOk(p) && DuesOk(p) && Enabled(p, TryEvict(t)) && Shape(Next(p, TryEvict(t)))
    ensures DuesOk(Next(p, TryEvict(t)))
  {
    var p', tk := Next(p, TryEvict(t)), p.threads[t].stage.tk;
    TicketNode(p, t);
    assert Growers(p.threads, tk.node) <= p.nodes[tk.node].refs;
    if p.nodes[tk.node].iter == tk.iter && p.nodes[tk.node].Unloadable() {
      UnloadDues(p, tk.node, p.nodes[tk.node].Unload());
      ThreadDues(Unloaded(p, tk.node, p.nodes[tk.node].Unload()), p');
    } else {
      ThreadDues(p, p');
    }
  }

  lemma ReadDues(p: Pool, t: nat)
    requires Shape(p) && ThreadsOk(p) && DuesOk(p) && Enabled(p, ReadSize(t)) && Shape(Next(p, ReadSize(t)))
    requires forall n :: 0 <= n < |p.nodes| ==> NodeOk(p.nodes[n])
    ensures DuesOk(Next(p, ReadSize(t)))
  {
    GrownIsPinned(p, t);
    assert DueOk(p.nodes[p.threads[t].goal.node], p.due[p.threads[t].goal.node]);
    ThreadDues(p, Next(p, ReadSize(t)));
  }

  lemma OtherDues(p: Pool, s: Step)
    requires Shape(p) && DuesOk(p) && Enabled(p, s) && Shape(Next(p, s))
    requires !s.Register? && !s.FinishPin? && !s.WriteSize? && !s.ReadSize? && !s.TryEvict? && !(s.Close? && p.nodes[s.n].loaded)
    ensures DuesOk(Next(p, s))
  {
    if s.AskClosed? || s.CompareIter? {
      TicketNode(p, s.t);
    }
    StepAddsNothing(p, s);
    ThreadDues(p, Next(p, s));
  }

  /** No size and no load changes, and no thread starts to add. */
  lemma StepAddsNothing(p: Pool, s: Step)
    requires Shape(p) && Enabled(p, s)
    requires !s.Register? && !s.FinishPin? && !s.WriteSize? && !s.ReadSize? && !s.TryEvict? && !(s.Close? && p.nodes[s.n].loaded)
    ensures var p' := Next(p, s);
            && p'.due == p.due && p'.leaked == p.leaked && |p'.nodes| == |p.nodes| && |p'.threads| == |p.threads|
            && (forall n :: 0 <= n < |p.nodes| ==> Alike(p.nodes[n], p'.nodes[n]))
            && (forall t :: 0 <= t < |p.threads| ==> p'.threads[t] == p.threads[t] || AddsUpTo(p'.threads[t], p.nodes, p.due))
  {
    if s.AskClosed? || s.CompareIter? {
      TicketNode(p, s.t);
    }
  }

  // ----- the quota -----

  lemma ThreadShare(p: Pool, t: nat, th: Thread)
    requires t < |p.threads|
    ensures Total(p.threads[t := th], RESERVED) + p.threads[t].Reserved() == Total(p.threads, RESERVED) + th.Reserved()
    ensures p.threads[t].Reserved() <= Total(p.threads, RESERVED)
  {
    TotalUpdate(p.threads, RESERVED, t, th);
    TotalPart(p.threads, RESERVED, t);
  }

  lemma DueShare(p: Pool, n: nat, due: nat)
    requires n < |p.due|
    ensures Total(p.due[n := due], DUE) + p.due[n] == Total(p.due, DUE) + due
    ensures p.due[n] <= Total(p.due, DUE)
  {
    TotalUpdate(p.due, DUE, n, due);
    TotalPart(p.due, DUE, n);
  }

  lemma UnloadQuota(p: Pool, n: nat, node: Node)
    requires Shape(p) && DuesOk(p) && QuotaOk(p) && n < |p.nodes| && p.nodes[n].loaded
    ensures QuotaOk(Unloaded(p, n, node))
  {
    assert DueOk(p.nodes[n], p.due[n]);
    DueShare(p, n, 0);
    ReturnSubtracts(p.active, p.nodes[n].size);
  }

  lemma ThreadQuota(p: Pool, p': Pool, t: nat)
    requires QuotaOk(p) && t < |p.threads| && |p'.threads| == |p.threads| && p'.threads == p.threads[t := p'.threads[t]]
    requires p'.due == p.due && p'.leaked == p.leaked && p'.limit == p.limit
    requires p'.active == p.active - p.threads[t].Reserved() + p'.threads[t].Reserved() <= p.limit
    ensures QuotaOk(p')
  {
    ThreadShare(p, t, p'.threads[t]);
  }

  lemma SwapQuotaOk(p: Pool, t: nat)
    requires Shape(p) && ThreadsOk(p) && QuotaOk(p) && Enabled(p, SwapQuota(t))
    ensures QuotaOk(Next(p, SwapQuota(t)))
  {
    assert ThreadOk(p, t);
    ThreadQuota(p, Next(p, SwapQuota(t)), t);
  }

  lemma RollbackQuota(p: Pool, t: nat)
    requires Shape(p) && DuesOk(p) && QuotaOk(p) && Enabled(p, RollbackExpand(t))
    ensures QuotaOk(Next(p, RollbackExpand(t)))
  {
    ThreadShare(p, t, Idle);
    ReturnSubtracts(p.active, p.threads[t].goal.size);
    ThreadQuota(p, Next(p, RollbackExpand(t)), t);
  }

  lemma UseQuota(p: Pool, s: Step)
    requires Shape(p) && QuotaOk(p) && Enabled(p, s) && (s.FinishPin? || s.WriteSize?)
    requires Used(p, s, Next(p, s))
    ensures QuotaOk(Next(p, s))
  {
    var p', n := Next(p, s), p.threads[s.t].goal.node;
    ThreadShare(p, s.t, Idle);
    assert p'.threads == p.threads[s.t := Idle] && p'.active == p.active && p'.limit == p.limit;
    DueShare(p, n, p.due[n] + p.threads[s.t].goal.size);
  }

  lemma EvictQuota(p: Pool, t: nat)
    requires Shape(p) && DuesOk(p) && QuotaOk(p) && Enabled(p, TryEvict(t))
    ensures QuotaOk(Next(p, TryEvict(t)))
  {
    var p', tk := Next(p, TryEvict(t)), p.threads[t].stage.tk;
    TicketNode(p, t);
    if p.nodes[tk.node].iter == tk.iter && p.nodes[tk.node].Unloadable() {
      UnloadQuota(p, tk.node, p.nodes[tk.node].Unload());
      ThreadQuota(Unloaded(p, tk.node, p.nodes[tk.node].Unload()), p', t);
    } else {
      ThreadQuota(p, p', t);
    }
  }

  lemma MoveQuota(p: Pool, s: Step)
    requires Shape(p) && QuotaOk(p) && Enabled(p, s)
    requires s.PinStart? || s.ExpandStart? || s.LoadQuota? || s.DequeueTicket? || s.AskClosed? || s.CompareIter? || s.ReadSize?
    ensures QuotaOk(Next(p, s))
  {
    if s.AskClosed? || s.CompareIter? {
      TicketNode(p, s.t);
    }
    ThreadQuota(p, Next(p, s), s.t);
  }

  lemma StepQuota(p: Pool, s: Step)
    requires Shape(p) && ThreadsOk(p) && DuesOk(p) && QuotaOk(p) && Enabled(p, s) && Shape(Next(p, s))
    requires forall n :: 0 <= n < |p.nodes| ==> NodeOk(p.nodes[n])
    ensures QuotaOk(Next(p, s))
  {
    if s.Register? {
      assert (p.due + [0])[..|p.due|] == p.due;
    } else if s.SwapQuota? {
      SwapQuotaOk(p, s.t);
    } else if s.TryEvict? {
      EvictQuota(p, s.t);
    } else if s.RollbackExpand? {
      RollbackQuota(p, s.t);
    } else if s.FinishPin? || s.WriteSize? {
      UseDues(p, s);
      UseQuota(p, s);
    } else if s.Close? {
      if p.nodes[s.n].loaded {
        UnloadQuota(p, s.n, p.nodes[s.n].(closed := true, loaded := false));
      }
    } else if !s.PinLoaded? && !s.Unpin? {
      MoveQuota(p, s);
    }
  }

  // ----- all runs -----

  lemma StepKeeps(p: Pool, s: Step)
    requires Inv(p) && Enabled(p, s)
    ensures Inv(Next(p, s))
  {
    StepCoherent(p, s);
    StepUnpins(p, s);
    StepDues(p, s);
    StepQuota(p, s);
  }

  /** Any interleaving of any number of threads. */
  ghost predicate Run(pools: seq<Pool>, steps: seq<Step>) {
    && |pools| == |steps| + 1 && Start(pools[0])
    && (forall i {:trigger steps[i]} :: 0 <= i < |steps| ==> Shape(pools[i]) && Enabled(pools[i], steps[i]))
    && (forall i {:trigger steps[i]} :: 0 <= i < |steps| ==> pools[i + 1] == Next(pools[i], steps[i]))
  }

  lemma {:induction false} RunKeeps(pools: seq<Pool>, steps: seq<Step>, k: nat)
    requires Run(pools, steps) && k < |pools|
    ensures Inv(pools[k])
  {
    if k == 0 {
      StartInv(pools[0]);
    } else {
      RunKeeps(pools, steps, k - 1);
      StepKeeps(pools[k - 1], steps[k - 1]);
    }
  }

  // ----- what is lost -----

  /** Quota that no node holds and no thread has reserved. */
  ghost function Lost(p: Pool): int {
    p.active - LoadedSize(p.nodes) - Total(p.threads, RESERVED)
  }

  lemma {:induction false} LoadedWithinDue(nodes: seq<Node>, due: seq<nat>)
    requires |due| == |nodes| && forall n :: 0 <= n < |nodes| ==> DueOk(nodes[n], due[n])
    ensures LoadedSize(nodes) <= Total(due, DUE)
    ensures LoadedSize(nodes) == Total(due, DUE) <==> forall n :: 0 <= n < |nodes| && nodes[n].loaded ==> due[n] == nodes[n].size
  {
    if nodes != [] {
      var z := |nodes| - 1;
      assert DueOk(nodes[z], due[z]);
      LoadedWithinDue(nodes[..z], due[..z]);
      assert forall n :: 0 <= n < z ==> nodes[..z][n] == nodes[n] && due[..z][n] == due[n];
    }
  }

  /** In every interleaving what nodes hold and what threads have reserved is covered by the
      active size, and the active size is within the limit. */
  lemma QuotaBounded(pools: seq<Pool>, steps: seq<Step>, k: nat)
    requires Run(pools, steps) && k < |pools|
    ensures Lost(pools[k]) >= 0 && pools[k].active <= pools[k].limit
  {
    RunKeeps(pools, steps, k);
    LoadedWithinDue(pools[k].nodes, pools[k].due);
  }

  /** How much a step loses: a growing thread writes over a growth it has not seen, or into a
      node that was closed meanwhile. */
  ghost function Overwritten(p: Pool, s: Step): int
    requires Shape(p) && Enabled(p, s)
  {
    if !s.WriteSize? then 0
    else if p.nodes[p.threads[s.t].goal.node].loaded then p.nodes[p.threads[s.t].goal.node].size - p.threads[s.t].stage.pre
    else p.threads[s.t].goal.size
  }

  lemma HeldShare(p: Pool, n: nat, node: Node)
    requires n < |p.nodes|
    ensures LoadedSize(p.nodes[n := node]) + p.nodes[n].Held() == LoadedSize(p.nodes) + node.Held()
    ensures p.nodes[n].Held() <= LoadedSize(p.nodes)
  {
    TotalUpdate(p.nodes, HELD, n, node);
    TotalPart(p.nodes, HELD, n);
  }

  lemma UnloadLoses(p: Pool, n: nat, node: Node)
    requires Shape(p) && DuesOk(p) && QuotaOk(p) && n < |p.nodes| && p.nodes[n].loaded && !node.loaded
    ensures Lost(Unloaded(p, n, node)) == Lost(p)
  {
    assert DueOk(p.nodes[n], p.due[n]);
    DueShare(p, n, 0);
    HeldShare(p, n, node);
    ReturnSubtracts(p.active, p.nodes[n].size);
  }

  lemma ThreadLoses(p: Pool, p': Pool, t: nat)
    requires t < |p.threads| && |p'.threads| == |p.threads| && p'.threads == p.threads[t := p'.threads[t]]
    requires LoadedSize(p'.nodes) == LoadedSize(p.nodes)
    ensures Lost(p') - Lost(p) == p'.active - p.active - (p'.threads[t].Reserved() - p.threads[t].Reserved())
  {
    ThreadShare(p, t, p'.threads[t]);
  }

  lemma EvictLoses(p: Pool, t: nat)
    requires Shape(p) && DuesOk(p) && QuotaOk(p) && Enabled(p, TryEvict(t))
    ensures Lost(Next(p, TryEvict(t))) == Lost(p)
  {
    var p', tk := Next(p, TryEvict(t)), p.threads[t].stage.tk;
    TicketNode(p, t);
    if p.nodes[tk.node].iter == tk.iter && p.nodes[tk.node].Unloadable() {
      UnloadLoses(p, tk.node, p.nodes[tk.node].Unload());
      ThreadLoses(Unloaded(p, tk.node, p.nodes[tk.node].Unload()), p', t);
    } else {
      ThreadLoses(p, p', t);
    }
  }

  lemma UseLoses(p: Pool, s: Step)
    requires Shape(p) && ThreadsOk(p) && Enabled(p, s) && (s.FinishPin? || s.WriteSize?)
    requires forall n :: 0 <= n < |p.nodes| ==> NodeOk(p.nodes[n])
    ensures Lost(Next(p, s)) == Lost(p) + Overwritten(p, s)
  {
    var p', n := Next(p, s), p.threads[s.t].goal.node;
    assert ThreadOk(p, s.t);
    ThreadShare(p, s.t, Idle);
    HeldShare(p, n, p'.nodes[n]);
  }

  lemma RollbackLoses(p: Pool, t: nat)
    requires Shape(p) && DuesOk(p) && QuotaOk(p) && Enabled(p, RollbackExpand(t))
    ensures Lost(Next(p, RollbackExpand(t))) == Lost(p)
  {
    ThreadShare(p, t, Idle);
    ReturnSubtracts(p.active, p.threads[t].goal.size);
    ThreadLoses(p, Next(p, RollbackExpand(t)), t);
  }

  lemma SwapLoses(p: Pool, t: nat)
    requires Shape(p) && ThreadsOk(p) && QuotaOk(p) && Enabled(p, SwapQuota(t))
    ensures Lost(Next(p, SwapQuota(t))) == Lost(p)
  {
    assert ThreadOk(p, t);
    ThreadLoses(p, Next(p, SwapQuota(t)), t);
  }

  lemma MoveLoses(p: Pool, s: Step)
    requires Shape(p) && Enabled(p, s)
    requires s.PinStart? || s.ExpandStart? || s.LoadQuota? || s.DequeueTicket? || s.AskClosed? || s.CompareIter? || s.ReadSize?
    ensures Lost(Next(p, s)) == Lost(p)
  {
    if s.AskClosed? || s.CompareIter? {
      TicketNode(p, s.t);
    }
    ThreadLoses(p, Next(p, s), s.t);
  }

  lemma NodeLoses(p: Pool, s: Step)
    requires Shape(p) && DuesOk(p) && QuotaOk(p) && Enabled(p, s) && (s.Register? || s.PinLoaded? || s.Unpin? || s.Close?)
    ensures Lost(Next(p, s)) == Lost(p)
  {
    var p' := Next(p, s);
    if s.Register? {
      assert p'.nodes[..|p.nodes|] == p.nodes;
    } else if s.Close? && p.nodes[s.n].loaded {
      UnloadLoses(p, s.n, p.nodes[s.n].(closed := true, loaded := false));
    } else {
      HeldShare(p, s.n, p'.nodes[s.n]);
    }
  }

  /** Exactly the overwritten and the misplaced growth is lost, and nothing else ever is. */
  lemma LossExact(p: Pool, s: Step)
    requires Inv(p) && Enabled(p, s)
    ensures Lost(Next(p, s)) == Lost(p) + Overwritten(p, s)
  {
    if s.Register? || s.PinLoaded? || s.Unpin? || s.Close? {
      NodeLoses(p, s);
    } else if s.TryEvict? {
      EvictLoses(p, s.t);
    } else if s.FinishPin? || s.WriteSize? {
      UseLoses(p, s);
    } else if s.RollbackExpand? {
      RollbackLoses(p, s.t);
    } else if s.SwapQuota? {
      SwapLoses(p, s.t);
    } else {
      MoveLoses(p, s);
    }
  }

  lemma Forward(p: Pool, s: Step)
    requires Inv(p) && Enabled(p, s)
    ensures Inv(Next(p, s)) && Lost(Next(p, s)) == Lost(p) + Overwritten(p, s)
  {
    StepKeeps(p, s);
    LossExact(p, s);
  }

  // ----- one grower per node -----

  /** Nobody starts to grow a node that is being grown or closed, and nobody closes a node
      that is being grown. */
  ghost predicate OneByOne(pools: seq<Pool>, steps: seq<Step>)
    requires Run(pools, steps)
  {
    forall i {:trigger steps[i]} :: 0 <= i < |steps| ==> Alone(pools[i], steps[i])
  }

  ghost predicate Alone(p: Pool, s: Step)
    requires Enabled(p, s)
  {
    && (s.ExpandStart? ==> Growers(p.threads, s.n) == 0 && !p.nodes[s.n].closed)
    && (s.Close? ==> Growers(p.threads, s.n) == 0)
  }

  /** A size about to be written over is the size that was read, and a node that is grown is
      open and has one grower. */
  ghost predicate SoleOk(p: Pool)
    requires Shape(p)
  {
    && (forall n {:trigger p.nodes[n].closed} :: 0 <= n < |p.nodes| ==> Growers(p.threads, n) <= One(!p.nodes[n].closed))
    && (forall t :: 0 <= t < |p.threads| && p.threads[t].Busy? && p.threads[t].stage.Adding? ==>
          p.threads[t].stage.pre == p.nodes[p.threads[t].goal.node].size)
  }

  lemma {:induction false} TwoCounted(threads: seq<Thread>, t: nat, u: nat, n: nat)
    requires t < u < |threads| && threads[t].Expands(n) && threads[u].Expands(n)
    ensures Growers(threads, n) >= 2
  {
    var last := |threads| - 1;
    if u < last {
      TwoCounted(threads[..last], t, u, n);
    } else {
      GrowerCounted(threads[..last], t, n);
    }
  }

  /** The step leaves every thread alone but t, which may only stop growing. */
  lemma SoleFrame(p: Pool, p': Pool, t: nat)
    requires Shape(p) && Shape(p') && SoleOk(p) && t < |p.threads| && |p'.threads| == |p.threads| && |p'.nodes| == |p.nodes|
    requires p'.threads == p.threads[t := p'.threads[t]]
    requires forall n: nat :: p'.threads[t].Expands(n) ==> p.threads[t].Expands(n) || (n < |p.nodes| && Growers(p.threads, n) == 0 && !p.nodes[n].closed)
    requires forall n :: 0 <= n < |p.nodes| ==> p'.nodes[n].closed == p.nodes[n].closed
    requires forall u :: 0 <= u < |p'.threads| && p'.threads[u].Busy? && p'.threads[u].stage.Adding? ==>
               p'.threads[u].stage.pre == p'.nodes[p'.threads[u].goal.node].size
    ensures SoleOk(p')
  {
    forall n | 0 <= n < |p'.nodes| ensures Growers(p'.threads, n) <= One(!p'.nodes[n].closed) {
      GrowersUpdate(p.threads, t, p'.threads[t], n);
      assert Growers(p.threads, n) <= One(!p.nodes[n].closed);
    }
  }

  lemma NodeSole(p: Pool, s: Step)
    requires Shape(p) && Enabled(p, s) && SoleOk(p) && (s.Register? || s.PinLoaded? || s.Unpin? || s.Close?)
    requires Shape(Next(p, s)) && Alone(p, s)
    ensures SoleOk(Next(p, s))
  {
    var p' := Next(p, s);
    NoGrowers(p, p.threads);
    forall n | 0 <= n < |p'.nodes| ensures Growers(p'.threads, n) <= One(!p'.nodes[n].closed) {
      assert n < |p.nodes| ==> Growers(p.threads, n) <= One(!p.nodes[n].closed);
    }
  }

  /** The one grower of a node has read its size; when it writes, the node is still loaded
      and nobody else is adding. */
  lemma WriteSole(p: Pool, t: nat)
    requires Shape(p) && ThreadsOk(p) && SoleOk(p) && Enabled(p, WriteSize(t)) && Shape(Next(p, WriteSize(t)))
    requires forall n :: 0 <= n < |p.nodes| ==> NodeOk(p.nodes[n])
    ensures SoleOk(Next(p, WriteSize(t))) && Overwritten(p, WriteSize(t)) == 0
  {
    var p', n := Next(p, WriteSize(t)), p.threads[t].goal.node;
    assert ThreadOk(p, t) && p.threads[t].Expands(n) && Growers(p.threads, n) <= One(!p.nodes[n].closed);
    GrownIsPinned(p, t);
    GrowerCounted(p.threads, t, n);
    forall u | 0 <= u < |p'.threads| && p'.threads[u].Busy? && p'.threads[u].stage.Adding?
      ensures p'.threads[u].stage.pre == p'.nodes[p'.threads[u].goal.node].size
    {
      assert ThreadOk(p, u);
      if p.threads[u].goal.node == n {
        TwoCounted(p.threads, if t < u then t else u, if t < u then u else t, n);
      }
    }
    SoleFrame(p, p', t);
  }

  lemma StepSole(p: Pool, s: Step)
    requires Shape(p) && ThreadsOk(p) && SoleOk(p) && Enabled(p, s) && Shape(Next(p, s))
    requires Alone(p, s) && forall n :: 0 <= n < |p.nodes| ==> NodeOk(p.nodes[n])
    ensures SoleOk(Next(p, s)) && Overwritten(p, s) == 0
  {
    if s.Register? || s.PinLoaded? || s.Unpin? || s.Close? {
      NodeSole(p, s);
    } else if s.WriteSize? {
      WriteSole(p, s.t);
    } else if s.AskClosed? || s.CompareIter? || s.TryEvict? {
      LookSole(p, s);
    } else {
      SoleFrame(p, Next(p, s), s.t);
    }
  }

  lemma LookSole(p: Pool, s: Step)
    requires Shape(p) && SoleOk(p) && Enabled(p, s) && Shape(Next(p, s)) && (s.AskClosed? || s.CompareIter? || s.TryEvict?)
    ensures SoleOk(Next(p, s))
  {
    TicketNode(p, s.t);
    SoleFrame(p, Next(p, s), s.t);
  }

  lemma {:induction false} RunSole(pools: seq<Pool>, steps: seq<Step>, k: nat)
    requires Run(pools, steps) && OneByOne(pools, steps) && k < |pools|
    ensures Inv(pools[k]) && SoleOk(pools[k]) && Lost(pools[k]) == 0
  {
    if k == 0 {
      StartInv(pools[0]);
      NothingLost(pools[0]);
    } else {
      RunSole(pools, steps, k - 1);
      NextSole(pools[k - 1], steps[k - 1]);
    }
  }

  lemma NextSole(p: Pool, s: Step)
    requires Inv(p) && SoleOk(p) && Enabled(p, s) && Alone(p, s)
    ensures Inv(Next(p, s)) && SoleOk(Next(p, s)) && Lost(Next(p, s)) == Lost(p)
  {
    Forward(p, s);
    StepSole(p, s);
  }

  lemma NothingLost(p: Pool)
    requires Start(p)
    ensures Lost(p) == 0 && Shape(p) && SoleOk(p)
  {
    IdleReservesNothing(p.threads);
  }

  /** Quota conservation: in every interleaving in which no node is grown by two threads at
      once, grown after it was closed or closed while it is grown, the active size is exactly
      the loaded nodes plus the grants not yet used, and within the limit. */
  lemma QuotaConserved(pools: seq<Pool>, steps: seq<Step>, k: nat)
    requires Run(pools, steps) && OneByOne(pools, steps) && k < |pools|
    ensures pools[k].active == LoadedSize(pools[k].nodes) + Total(pools[k].threads, RESERVED) <= pools[k].limit
  {
    RunSole(pools, steps, k);
  }

  /** Exactly: quota is conserved throughout a run if and only if every size is written into
      a loaded node that still has the size that was read. */
  lemma ConservedIff(pools: seq<Pool>, steps: seq<Step>)
    requires Run(pools, steps)
    ensures (forall k {:trigger pools[k]} :: 0 <= k < |pools| ==> Lost(pools[k]) == 0) <==>
              (forall i {:trigger steps[i]} :: 0 <= i < |steps| && steps[i].WriteSize? ==> Lands(pools[i], steps[i].t))
  {
    if forall i {:trigger steps[i]} :: 0 <= i < |steps| && steps[i].WriteSize? ==> Lands(pools[i], steps[i].t) {
      forall k | 0 <= k < |pools| ensures Lost(pools[k]) == 0 {
        LandedSoFar(pools, steps, k);
      }
    }
    if forall k {:trigger pools[k]} :: 0 <= k < |pools| ==> Lost(pools[k]) == 0 {
      forall i | 0 <= i < |steps| && steps[i].WriteSize? ensures Lands(pools[i], steps[i].t) {
        RunKeeps(pools, steps, i);
        LossExact(pools[i], steps[i]);
        assert Lost(pools[i]) == 0 && Lost(pools[i + 1]) == 0;
      }
    }
  }

  /** The thread's growth, if it is one, goes into a loaded node of the size it has read. */
  ghost predicate Lands(p: Pool, t: nat)
    requires Shape(p) && Enabled(p, WriteSize(t))
  {
    var node := p.nodes[p.threads[t].goal.node];
    if node.loaded then node.size == p.threads[t].stage.pre else p.threads[t].goal.size == 0
  }

  lemma {:induction false} LandedSoFar(pools: seq<Pool>, steps: seq<Step>, k: nat)
    requires Run(pools, steps) && k < |pools|
    requires forall i {:trigger steps[i]} :: 0 <= i < |steps| && steps[i].WriteSize? ==> Lands(pools[i], steps[i].t)
    ensures Lost(pools[k]) == 0
  {
    if k == 0 {
      NothingLost(pools[0]);
    } else {
      LandedSoFar(pools, steps, k - 1);
      RunKeeps(pools, steps, k - 1);
      LandedStep(pools[k - 1], steps[k - 1]);
    }
  }

  lemma LandedStep(p: Pool, s: Step)
    requires Inv(p) && Enabled(p, s) && (s.WriteSize? ==> Lands(p, s.t))
    ensures Lost(Next(p, s)) == Lost(p)
  {
    LossExact(p, s);
  }

  // ----- the other promises -----

  /** In every interleaving a request for no room is never refused, so a new node of size 0
      can always be pinned. */
  lemma EmptyRequestIsGranted(pools: seq<Pool>, steps: seq<Step>, k: nat)
    requires Run(pools, steps) && k < |steps| && steps[k].LoadQuota? && pools[k].threads[steps[k].t].goal.size == 0
    ensures pools[k + 1] == Stay(pools[k], steps[k].t, Swap(pools[k].active))
  {
    RunKeeps(pools, steps, k);
    EmptyRequestPasses(pools[k], steps[k].t);
  }

  lemma EmptyRequestPasses(p: Pool, t: nat)
    requires Shape(p) && QuotaOk(p) && Enabled(p, LoadQuota(t)) && p.threads[t].goal.size == 0
    ensures Next(p, LoadQuota(t)) == Stay(p, t, Swap(p.active))
  {
    GrantIsSound(p.active, 0, p.limit);
  }

  /** Every loaded, unpinned node is on offer: its live ticket is queued or in hand. */
  lemma EvictableIsOffered(pools: seq<Pool>, steps: seq<Step>, k: nat, n: nat)
    requires Run(pools, steps) && k < |pools| && n < |pools[k].nodes| && pools[k].nodes[n].Unloadable()
    ensures Offered(pools[k], Ticket(n, pools[k].nodes[n].iter)) && !pools[k].nodes[n].closed
  {
    RunKeeps(pools, steps, k);
    assert NodeOk(pools[k].nodes[n]);
  }

  /** Tickets leave the queue in the order of the last unpins: one that is taken while its
      node can be evicted is of a node released before every other evictable node, save those
      whose ticket a thread has taken already. */
  lemma TakesLeastRecentlyUnpinned(pools: seq<Pool>, steps: seq<Step>, k: nat, m: nat)
    requires Run(pools, steps) && k < |steps| && steps[k].DequeueTicket? && pools[k].queue != [] && m < |pools[k].nodes|
    requires Current(pools[k].nodes, pools[k].queue[0]) && m != pools[k].queue[0].node && pools[k].nodes[m].Unloadable()
    ensures |pools[k].unpinned| == |pools[k].nodes|
    ensures pools[k].unpinned[pools[k].queue[0].node] < pools[k].unpinned[m] ||
              exists t :: 0 <= t < |pools[k].threads| && pools[k].threads[t].InHand(Ticket(m, pools[k].nodes[m].iter))
  {
    RunKeeps(pools, steps, k);
    var p, tk := pools[k], Ticket(m, pools[k].nodes[m].iter);
    assert Offered(p, tk);
    if tk in p.queue {
      var i :| 0 <= i < |p.queue| && p.queue[i] == tk;
      assert Current(p.nodes, p.queue[i]);
    }
  }

  /** A thread that is pinning a node never has a ticket of that node in its hand, so it
      never asks for the lock it already holds. */
  lemma NeverEvictsOwnPin(pools: seq<Pool>, steps: seq<Step>, k: nat, t: nat, tk: Ticket)
    requires Run(pools, steps) && k < |pools| && t < |pools[k].threads| && pools[k].threads[t].InHand(tk)
    ensures !pools[k].threads[t].Pins(tk.node)
  {
    RunKeeps(pools, steps, k);
    assert OrderOk(pools[k]);
  }

  /** In every interleaving, while a thread is busy some thread can go on. */
  lemma RunNeverDeadlocks(pools: seq<Pool>, steps: seq<Step>, k: nat, t: nat)
    requires Run(pools, steps) && k < |pools| && At(pools[k], t)
    ensures exists u :: 0 <= u < |pools[k].threads| && At(pools[k], u) && Enabled(pools[k], StepOf(pools[k].threads[u], u))
  {
    RunKeeps(pools, steps, k);
    NoDeadlock(pools[k], t);
  }

  /** No step unloads an open node that is in use. */
  lemma PinnedStaysLoaded(pools: seq<Pool>, steps: seq<Step>, k: nat, n: nat)
    requires Run(pools, steps) && k < |steps| && n < |pools[k].nodes| && pools[k].nodes[n].refs > 0 && !pools[k].nodes[n].closed
    ensures pools[k].nodes[n].loaded && n < |pools[k + 1].nodes|
    ensures pools[k + 1].nodes[n].loaded || pools[k + 1].nodes[n].closed
  {
    RunKeeps(pools, steps, k);
    assert NodeOk(pools[k].nodes[n]);
    StepKeepsLoaded(pools[k], steps[k], n);
  }

  lemma StepKeepsLoaded(p: Pool, s: Step, n: nat)
    requires Shape(p) && Enabled(p, s) && n < |p.nodes| && p.nodes[n].loaded && p.nodes[n].refs > 0
    ensures n < |Next(p, s).nodes| && (Next(p, s).nodes[n].loaded || Next(p, s).nodes[n].closed)
  {
    if s.TryEvict? {
      TicketNode(p, s.t);
    }
  }
}