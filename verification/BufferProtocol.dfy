/** The buffer pool under concurrency. Every lock section, every queue operation, the load
    and the compare-and-swap of the quota, the read and the write of a node's size are single
    steps; any number of threads interleave them. A thread that pins an unloaded node holds
    that node's lock until it has room or gives up; evicting a node needs its lock, too. */
module BufferProtocol {
  import opened Wire
  import opened Sequences
  import opened BufferNodes

  /** Why a thread asks for room: to load a node it has locked, or to grow a pinned one. */
  datatype Goal = ToPin(node: nat, size: nat) | ToExpand(node: nat, size: nat)

  datatype Stage =
    | Quota                  // about to load the active size
    | Swap(pre: nat)         // about to compare-and-swap it
    | Take                   // refused: about to dequeue a ticket
    | Hold(tk: Ticket)       // about to ask whether the ticket's node is closed
    | Probe(tk: Ticket)      // about to compare iterations without the lock
    | Evict(tk: Ticket)      // about to lock the node and unload it
    | Granted                // quota granted, not yet used
    | Adding(pre: nat)       // growing: has read the node's size, about to write the sum

  /** since orders the threads that hold a lock by when they took it. */
  datatype Thread = Idle | Busy(goal: Goal, stage: Stage, since: nat)
  {
    function Reserved(): nat { if Busy? && (stage.Granted? || stage.Adding?) then goal.size else 0 }
    predicate Pins(n: nat) { Busy? && goal.ToPin? && goal.node == n }
    predicate Expands(n: nat) { Busy? && goal.ToExpand? && goal.node == n }
    predicate InHand(tk: Ticket) { Busy? && (stage == Hold(tk) || stage == Probe(tk) || stage == Evict(tk)) }
  }

  /** Beside the pool itself its past: when each node was last released by its last user, the
      quota each loaded node was given, and the quota that unloading did not return or that
      went into a node no longer loaded. */
  datatype Pool = Pool(limit: nat, active: nat, nodes: seq<Node>, queue: seq<Ticket>, threads: seq<Thread>, time: nat,
                       unpinned: seq<nat>, due: seq<nat>, leaked: int)

  const DUE := (d: nat) => d

  const RESERVED := (t: Thread) => t.Reserved()

  /** No thread is inside a pin of the node, so its lock can be taken. */
  ghost predicate Unlocked(p: Pool, n: nat) {
    forall t :: 0 <= t < |p.threads| ==> !p.threads[t].Pins(n)
  }

  /** Threads growing the node; each owns one of its references. */
  function Growers(threads: seq<Thread>, n: nat): nat {
    if threads == [] then 0
    else Growers(threads[..|threads| - 1], n) + if threads[|threads| - 1].Expands(n) then 1 else 0
  }

  // ----- the steps -----

  datatype Step =
    | Register(size: nat)
    | PinLoaded(n: nat)
    | PinStart(t: nat, n: nat)
    | ExpandStart(t: nat, n: nat, delta: nat)
    | LoadQuota(t: nat)
    | SwapQuota(t: nat)
    | DequeueTicket(t: nat)
    | AskClosed(t: nat)
    | CompareIter(t: nat)
    | TryEvict(t: nat)
    | FinishPin(t: nat)
    | RollbackExpand(t: nat)
    | ReadSize(t: nat)
    | WriteSize(t: nat)
    | Unpin(n: nat)
    | Close(n: nat)

  ghost predicate At(p: Pool, t: nat) {
    t < |p.threads| && p.threads[t].Busy?
  }

  /** When a step can happen. Callers grow nodes they have pinned, keep the pin meanwhile,
      and request sizes whose sum with the limit is a 64-bit number. */
  ghost predicate Possible(p: Pool, s: Step) {
    match s
    case Register(size) => p.limit + size < UINT64
    case PinLoaded(n) => n < |p.nodes| && p.nodes[n].loaded && Unlocked(p, n)
    case PinStart(t, n) =>
      t < |p.threads| && p.threads[t].Idle? && n < |p.nodes| && !p.nodes[n].loaded && Unlocked(p, n)
      && p.limit + p.nodes[n].size < UINT64
    case ExpandStart(t, n, delta) =>
      t < |p.threads| && p.threads[t].Idle? && n < |p.nodes|
      && p.nodes[n].refs > Growers(p.threads, n) && p.limit + delta < UINT64
    case LoadQuota(t) => At(p, t) && p.threads[t].stage.Quota?
    case SwapQuota(t) => At(p, t) && p.threads[t].stage.Swap?
    case DequeueTicket(t) => At(p, t) && p.threads[t].stage.Take?
    case AskClosed(t) => At(p, t) && p.threads[t].stage.Hold? && Unlocked(p, p.threads[t].stage.tk.node)
    case CompareIter(t) => At(p, t) && p.threads[t].stage.Probe?
    case TryEvict(t) => At(p, t) && p.threads[t].stage.Evict? && Unlocked(p, p.threads[t].stage.tk.node)
    case FinishPin(t) => At(p, t) && p.threads[t].stage.Granted? && p.threads[t].goal.ToPin?
    case RollbackExpand(t) => At(p, t) && p.threads[t].stage.Granted? && p.threads[t].goal.ToExpand?
    case ReadSize(t) => At(p, t) && p.threads[t].stage.Granted? && p.threads[t].goal.ToExpand?
    case WriteSize(t) => At(p, t) && p.threads[t].stage.Adding?
    case Unpin(n) => n < |p.nodes| && Unlocked(p, n) && p.nodes[n].refs > Growers(p.threads, n)
    case Close(n) => n < |p.nodes| && Unlocked(p, n) && !p.nodes[n].closed
  }

  /** Callers also pin open nodes only. */
  ghost predicate Enabled(p: Pool, s: Step) {
    Possible(p, s) && (s.PinStart? ==> !p.nodes[s.n].closed)
  }

  function Stay(p: Pool, t: nat, stage: Stage): Pool
    requires t < |p.threads| && p.threads[t].Busy?
  {
    p.(threads := p.threads[t := p.threads[t].(stage := stage)])
  }

  function SetNode(p: Pool, n: nat, node: Node): Pool
    requires n < |p.nodes|
  {
    p.(nodes := p.nodes[n := node])
  }

  /** Tickets and goals name registered nodes; everything else is proved. */
  ghost predicate Shape(p: Pool) {
    && |p.unpinned| == |p.nodes| && |p.due| == |p.nodes|
    && (forall i {:trigger p.queue[i].node} :: 0 <= i < |p.queue| ==> p.queue[i].node < |p.nodes|)
    && (forall t {:trigger p.threads[t].goal} :: 0 <= t < |p.threads| && p.threads[t].Busy? ==> p.threads[t].goal.node < |p.nodes|)
    && (forall t, tk :: 0 <= t < |p.threads| && p.threads[t].InHand(tk) ==> tk.node < |p.nodes|)
  }

  ghost function Next(p: Pool, s: Step): Pool
    requires Shape(p) && Possible(p, s)
  {
    match s
    case Register(size) => p.(nodes := p.nodes + [Node(false, size, 0, false, 0)], unpinned := p.unpinned + [0], due := p.due + [0])
    case PinLoaded(n) => SetNode(p, n, p.nodes[n].(refs := p.nodes[n].refs + 1))
    case PinStart(t, n) =>
      p.(threads := p.threads[t := Busy(ToPin(n, p.nodes[n].size), Quota, p.time)], time := p.time + 1)
    case ExpandStart(t, n, delta) => p.(threads := p.threads[t := Busy(ToExpand(n, delta), Quota, 0)])
    case LoadQuota(t) =>
      if AddU64(p.active, p.threads[t].goal.size) > p.limit then Stay(p, t, Take) else Stay(p, t, Swap(p.active))
    case SwapQuota(t) =>
      if p.active == p.threads[t].stage.pre
      then Stay(p, t, Granted).(active := AddU64(p.threads[t].stage.pre, p.threads[t].goal.size))
      else Stay(p, t, Quota)
    case DequeueTicket(t) =>
      if p.queue == [] then p.(threads := p.threads[t := Idle])
      else Stay(p, t, Hold(p.queue[0])).(queue := p.queue[1..])
    case AskClosed(t) =>
      var tk := p.threads[t].stage.tk;
      TicketNode(p, t);
      Stay(p, t, if p.nodes[tk.node].closed then Take else Probe(tk))
    case CompareIter(t) =>
      var tk := p.threads[t].stage.tk;
      TicketNode(p, t);
      Stay(p, t, if p.nodes[tk.node].iter == tk.iter then Evict(tk) else Take)
    case TryEvict(t) =>
      var tk := p.threads[t].stage.tk;
      TicketNode(p, t);
      var node := p.nodes[tk.node];
      if node.iter == tk.iter && node.Unloadable()
      then Unloaded(Stay(p, t, Quota), tk.node, node.Unload())
      else Stay(p, t, Take)
    case FinishPin(t) =>
      var n := p.threads[t].goal.node;
      SetNode(p, n, p.nodes[n].(loaded := true, refs := p.nodes[n].refs + 1))
        .(threads := p.threads[t := Idle], due := p.due[n := p.threads[t].goal.size])
    case RollbackExpand(t) => p.(active := ReturnU64(p.active, p.threads[t].goal.size), threads := p.threads[t := Idle])
    case ReadSize(t) => Stay(p, t, Adding(p.nodes[p.threads[t].goal.node].size))
    case WriteSize(t) =>
      var n, delta := p.threads[t].goal.node, p.threads[t].goal.size;
      var p' := SetNode(p, n, p.nodes[n].(size := p.threads[t].stage.pre + delta)).(threads := p.threads[t := Idle]);
      if p.nodes[n].loaded then p'.(due := p.due[n := p.due[n] + delta]) else p'.(leaked := p.leaked + delta)
    case Unpin(n) =>
      var node := p.nodes[n];
      if node.refs > 1 then SetNode(p, n, node.(refs := node.refs - 1))
      else SetNode(p, n, node.(refs := 0, iter := node.iter + 1))
             .(queue := p.queue + [Ticket(n, node.iter + 1)], unpinned := p.unpinned[n := p.time], time := p.time + 1)
    case Close(n) =>
      var node := p.nodes[n];
      if node.loaded then Unloaded(p, n, node.(closed := true, loaded := false))
      else SetNode(p, n, node.(closed := true))
  }

  /** A loaded node is replaced by an unloaded one. Its size is returned, which may be less
      than the quota it was given. */
  function Unloaded(p: Pool, n: nat, node: Node): Pool
    requires n < |p.nodes| && |p.due| == |p.nodes|
  {
    SetNode(p, n, node).(active := ReturnU64(p.active, p.nodes[n].size),
                         due := p.due[n := 0], leaked := p.leaked + p.due[n] - p.nodes[n].size)
  }

  lemma TicketNode(p: Pool, t: nat)
    requires Shape(p) && At(p, t)
    ensures p.threads[t].stage.Hold? || p.threads[t].stage.Probe? || p.threads[t].stage.Evict? ==>
              p.threads[t].stage.tk.node < |p.nodes|
  {
    if p.threads[t].stage.Hold? || p.threads[t].stage.Probe? || p.threads[t].stage.Evict? {
      assert p.threads[t].InHand(p.threads[t].stage.tk);
    }
  }

  // ----- the invariant -----

  /** The active size is what loaded nodes were given plus what was granted and is not yet
      used plus what was never returned, and it never exceeds the limit. */
  ghost predicate QuotaOk(p: Pool) {
    && p.limit < UINT64
    && p.active == Total(p.due, DUE) + Total(p.threads, RESERVED) + p.leaked
    && p.active <= p.limit
  }

  /** A loaded node was given at least its size, and an open one every size that growing
      threads have read. */
  ghost predicate DuesOk(p: Pool)
    requires Shape(p)
  {
    && p.leaked >= 0
    && (forall n {:trigger DueOk(p.nodes[n], p.due[n])} :: 0 <= n < |p.nodes| ==> DueOk(p.nodes[n], p.due[n]))
    && (forall t :: 0 <= t < |p.threads| && p.threads[t].Busy? && p.threads[t].stage.Adding? ==>
          p.nodes[p.threads[t].goal.node].closed || p.threads[t].stage.pre <= p.due[p.threads[t].goal.node])
  }

  ghost predicate DueOk(node: Node, due: nat) {
    if node.loaded then node.size <= due else due == 0
  }

  ghost predicate NodeOk(node: Node) {
    (node.closed ==> !node.loaded) && (node.refs > 0 && !node.closed ==> node.loaded)
  }

  /** A pinning thread has its node locked: nobody else has, and it is as it was. A growing
      thread's node is pinned by it. */
  ghost predicate ThreadOk(p: Pool, t: nat)
    requires Shape(p) && t < |p.threads|
  {
    p.threads[t].Busy? ==>
      var goal := p.threads[t].goal;
      var node := p.nodes[goal.node];
      && p.limit + goal.size < UINT64
      && p.threads[t].since <= p.time
      && (goal.ToPin? ==> !node.loaded && !node.closed && node.refs == 0 && node.size == goal.size && p.threads[t].since < p.time)
      && (p.threads[t].stage.Swap? ==> p.threads[t].stage.pre + goal.size <= p.limit)
      && (p.threads[t].stage.Adding? ==> goal.ToExpand?)
  }

  ghost predicate ThreadsOk(p: Pool)
    requires Shape(p)
  {
    && (forall t {:trigger ThreadOk(p, t)} :: 0 <= t < |p.threads| ==> ThreadOk(p, t))
    && (forall t, u, n :: 0 <= t < u < |p.threads| && p.threads[t].Pins(n) ==> !p.threads[u].Pins(n))
    && (forall n {:trigger Growers(p.threads, n)} :: 0 <= n < |p.nodes| ==> Growers(p.threads, n) <= p.nodes[n].refs)
  }

  /** A ticket in hand is not newer than its node and older than all queued ones of it. */
  ghost predicate HandTicket(tk: Ticket, nodes: seq<Node>, queue: seq<Ticket>) {
    && tk.node < |nodes| && tk.iter <= nodes[tk.node].iter
    && (forall i :: 0 <= i < |queue| && queue[i].node == tk.node ==> tk.iter < queue[i].iter)
  }

  ghost predicate TicketsOk(p: Pool) {
    && QueueOk(p.nodes, p.queue)
    && forall t, tk :: 0 <= t < |p.threads| && p.threads[t].InHand(tk) ==> HandTicket(tk, p.nodes, p.queue)
  }

  /** Every evictable node has a live ticket, queued or in the hand of an evicting thread. */
  ghost predicate LiveOk(p: Pool) {
    forall n {:trigger p.nodes[n].Unloadable()} :: 0 <= n < |p.nodes| && p.nodes[n].Unloadable() ==> Offered(p, Ticket(n, p.nodes[n].iter))
  }

  ghost predicate Offered(p: Pool, tk: Ticket) {
    tk in p.queue || exists t :: 0 <= t < |p.threads| && p.threads[t].InHand(tk)
  }

  /** A thread that holds a lock and a ticket for a node locked by another took its own
      lock first. */
  ghost predicate OrderOk(p: Pool) {
    forall t, u, tk ::
      (0 <= t < |p.threads| && 0 <= u < |p.threads| && p.threads[t].InHand(tk) && p.threads[t].goal.ToPin? && p.threads[u].Pins(tk.node)) ==>
      p.threads[t].since < p.threads[u].since
  }

  ghost predicate Coherent(p: Pool) {
    && Shape(p) && ThreadsOk(p) && TicketsOk(p) && LiveOk(p) && OrderOk(p)
    && forall n {:trigger NodeOk(p.nodes[n])} :: 0 <= n < |p.nodes| ==> NodeOk(p.nodes[n])
  }

  /** Current tickets are queued in the order of the last unpins, behind those in hand. */
  ghost predicate UnpinsOk(p: Pool) {
    && UnpinOrder(p.nodes, p.queue, p.unpinned, p.time)
    && forall t, tk :: 0 <= t < |p.threads| && p.threads[t].InHand(tk) && Current(p.nodes, tk) ==> Ahead(p, tk)
  }

  ghost predicate Ahead(p: Pool, tk: Ticket)
    requires |p.unpinned| == |p.nodes| && tk.node < |p.nodes|
  {
    && p.unpinned[tk.node] < p.time
    && forall i :: 0 <= i < |p.queue| && Current(p.nodes, p.queue[i]) ==> p.unpinned[tk.node] < p.unpinned[p.queue[i].node]
  }

  ghost predicate Inv(p: Pool) {
    Coherent(p) && UnpinsOk(p) && DuesOk(p) && QuotaOk(p)
  }

  ghost predicate Start(p: Pool) {
    p.limit < UINT64 && p.active == 0 && p.nodes == [] && p.queue == [] && p.unpinned == [] && p.due == [] && p.leaked == 0 && forall t :: 0 <= t < |p.threads| ==> p.threads[t].Idle?
  }

  lemma {:induction false} IdleReservesNothing(threads: seq<Thread>)
    requires forall t :: 0 <= t < |threads| ==> threads[t].Idle?
    ensures Total(threads, RESERVED) == 0
  {
    if threads != [] {
      IdleReservesNothing(threads[..|threads| - 1]);
    }
  }

  lemma StartInv(p: Pool)
    requires Start(p)
    ensures Inv(p)
  {
    IdleReservesNothing(p.threads);
  }

  // ----- no deadlock -----

  /** The only step of a busy thread that can be blocked needs the lock of its ticket's node. */
  ghost predicate Blocked(p: Pool, t: nat) {
    && At(p, t) && (p.threads[t].stage.Hold? || p.threads[t].stage.Evict?)
    && !Unlocked(p, p.threads[t].stage.tk.node)
  }

  function StepOf(th: Thread, t: nat): Step
    requires th.Busy?
  {
    match th.stage
    case Quota => LoadQuota(t)
    case Swap(_) => SwapQuota(t)
    case Take => DequeueTicket(t)
    case Hold(_) => AskClosed(t)
    case Probe(_) => CompareIter(t)
    case Evict(_) => TryEvict(t)
    case Granted => if th.goal.ToPin? then FinishPin(t) else ReadSize(t)
    case Adding(_) => WriteSize(t)
  }

  lemma UnblockedCanStep(p: Pool, t: nat)
    requires At(p, t) && !Blocked(p, t)
    ensures Enabled(p, StepOf(p.threads[t], t))
  {
  }

  /** Among the first m threads, the pinning one that took its lock last, if there is one. */
  lemma {:induction false} LatestPinner(p: Pool, m: nat) returns (t: nat)
    requires m <= |p.threads| && exists u :: 0 <= u < m && p.threads[u].Busy? && p.threads[u].goal.ToPin?
    ensures t < m && p.threads[t].Busy? && p.threads[t].goal.ToPin?
    ensures forall u :: 0 <= u < m && p.threads[u].Busy? && p.threads[u].goal.ToPin? ==> p.threads[u].since <= p.threads[t].since
  {
    var last := m - 1;
    if exists u :: 0 <= u < last && p.threads[u].Busy? && p.threads[u].goal.ToPin? {
      t := LatestPinner(p, last);
      if p.threads[last].Busy? && p.threads[last].goal.ToPin? && p.threads[t].since < p.threads[last].since {
        t := last;
      }
    } else {
      t := last;
    }
  }

  /** In every reachable state with a busy thread, some busy thread can take its next
      step: waiting threads never form a cycle, and no thread waits for itself. */
  lemma NoDeadlock(p: Pool, t: nat)
    requires Inv(p) && At(p, t)
    ensures exists u :: 0 <= u < |p.threads| && At(p, u) && Enabled(p, StepOf(p.threads[u], u))
  {
    var u := t;
    if Blocked(p, t) {
      var n := p.threads[t].stage.tk.node;
      var v :| 0 <= v < |p.threads| && p.threads[v].Pins(n);
      u := LatestPinner(p, |p.threads|);
      LatestIsFree(p, u);
    }
    UnblockedCanStep(p, u);
  }

  lemma LatestIsFree(p: Pool, u: nat)
    requires Inv(p) && At(p, u) && p.threads[u].goal.ToPin?
    requires forall v :: 0 <= v < |p.threads| && p.threads[v].Busy? && p.threads[v].goal.ToPin? ==> p.threads[v].since <= p.threads[u].since
    ensures !Blocked(p, u)
  {
    if p.threads[u].stage.Hold? || p.threads[u].stage.Evict? {
      var tk := p.threads[u].stage.tk;
      assert p.threads[u].InHand(tk);
      assert Unlocked(p, tk.node);
    }
  }
}
