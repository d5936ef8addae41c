/** The pool as its steps have left it: users, closed nodes, tickets and goals, counted from the
    list of steps alone. */
module BufferHistory {
  import opened Options
  import opened BufferNodes
  import opened BufferProtocol
  import opened BufferQuota

  // ----- what the steps say -----

  /** The last request thread t made in the first k steps. */
  function Request(steps: seq<Step>, k: nat, t: nat): Option<Step>
    requires k <= |steps|
  {
    if k == 0 then None
    else if (steps[k - 1].PinStart? || steps[k - 1].ExpandStart?) && steps[k - 1].t == t then Some(steps[k - 1])
    else Request(steps, k - 1, t)
  }

  /** Thread t is at work for node n. */
  predicate Serves(steps: seq<Step>, k: nat, t: nat, n: nat)
    requires k <= |steps|
  {
    var r := Request(steps, k, t);
    r.Some? && ((r.value.PinStart? && r.value.n == n) || (r.value.ExpandStart? && r.value.n == n))
  }

  /** How a step changes the number of users of node n: a pin of a loaded node or the end of a
      pin that loads it adds one, an unpin takes one away. */
  function Gain(steps: seq<Step>, k: nat, n: nat): int
    requires k < |steps|
  {
    match steps[k]
    case PinLoaded(m) => if m == n then 1 else 0
    case FinishPin(t) => if Serves(steps, k, t, n) then 1 else 0
    case Unpin(m) => if m == n then -1 else 0
    case _ => 0
  }

  /** Pins of node n minus its unpins in the first k steps. */
  function Users(steps: seq<Step>, k: nat, n: nat): int
    requires k <= |steps|
  {
    if k == 0 then 0 else Users(steps, k - 1, n) + Gain(steps, k - 1, n)
  }

  /** Step k releases the last user of node n. */
  predicate LastRelease(steps: seq<Step>, k: nat, n: nat)
    requires k < |steps|
  {
    steps[k] == Unpin(n) && Users(steps, k, n) == 1
  }

  function Releases(steps: seq<Step>, k: nat, n: nat): nat
    requires k <= |steps|
  {
    if k == 0 then 0 else Releases(steps, k - 1, n) + if LastRelease(steps, k - 1, n) then 1 else 0
  }

  /** The tickets handed out, in order: one for each last release, numbered per node. */
  function Issued(steps: seq<Step>, k: nat): seq<Ticket>
    requires k <= |steps|
  {
    if k == 0 then []
    else if steps[k - 1].Unpin? && LastRelease(steps, k - 1, steps[k - 1].n)
    then Issued(steps, k - 1) + [Ticket(steps[k - 1].n, Releases(steps, k - 1, steps[k - 1].n) + 1)]
    else Issued(steps, k - 1)
  }

  /** How many of them were taken. */
  function Taken(steps: seq<Step>, k: nat): nat
    requires k <= |steps|
  {
    if k == 0 then 0
    else if steps[k - 1].DequeueTicket? && Taken(steps, k - 1) < |Issued(steps, k - 1)| then Taken(steps, k - 1) + 1
    else Taken(steps, k - 1)
  }

  /** The sizes nodes were registered with. */
  function Sizes(steps: seq<Step>, k: nat): seq<nat>
    requires k <= |steps|
  {
    if k == 0 then [] else if steps[k - 1].Register? then Sizes(steps, k - 1) + [steps[k - 1].size] else Sizes(steps, k - 1)
  }

  // ----- and the pool agrees -----

  ghost predicate NodeTold(p: Pool, steps: seq<Step>, k: nat, n: nat)
    requires k <= |steps| && n < |p.nodes|
  {
    && p.nodes[n].refs == Users(steps, k, n)
    && p.nodes[n].iter == Releases(steps, k, n)
    && (p.nodes[n].closed <==> Close(n) in steps[..k])
    && (!Grown(steps, k, n) ==> n < |Sizes(steps, k)| && p.nodes[n].size == Sizes(steps, k)[n])
  }

  /** Some thread has written the node's size. */
  predicate Grown(steps: seq<Step>, k: nat, n: nat)
    requires k <= |steps|
  {
    exists i :: 0 <= i < k && steps[i].WriteSize? && Serves(steps, i, steps[i].t, n)
  }

  /** No step was about the node. */
  ghost predicate Unheard(steps: seq<Step>, k: nat, n: nat)
    requires k <= |steps|
  {
    Users(steps, k, n) == 0 && Releases(steps, k, n) == 0 && Close(n) !in steps[..k] && !Grown(steps, k, n)
  }

  ghost predicate NodesTold(p: Pool, steps: seq<Step>, k: nat)
    requires k <= |steps|
  {
    && (forall n {:trigger NodeTold(p, steps, k, n)} :: 0 <= n < |p.nodes| ==> NodeTold(p, steps, k, n))
    && (forall n {:trigger Unheard(steps, k, n)} :: n >= |p.nodes| ==> Unheard(steps, k, n))
    && |Sizes(steps, k)| == |p.nodes|
  }

  ghost predicate GoalTold(goal: Goal, request: Option<Step>) {
    && request.Some?
    && match request.value
       case PinStart(_, n) => goal.ToPin? && goal.node == n
       case ExpandStart(_, n, delta) => goal == ToExpand(n, delta)
       case _ => false
  }

  ghost predicate GoalsTold(p: Pool, steps: seq<Step>, k: nat)
    requires k <= |steps|
  {
    forall t {:trigger p.threads[t].goal} :: 0 <= t < |p.threads| && p.threads[t].Busy? ==> GoalTold(p.threads[t].goal, Request(steps, k, t))
  }

  ghost predicate QueueTold(p: Pool, steps: seq<Step>, k: nat)
    requires k <= |steps|
  {
    Taken(steps, k) <= |Issued(steps, k)| && p.queue == Issued(steps, k)[Taken(steps, k)..]
  }

  ghost predicate Told(p: Pool, steps: seq<Step>, k: nat)
    requires k <= |steps|
  {
    NodesTold(p, steps, k) && GoalsTold(p, steps, k) && QueueTold(p, steps, k)
  }

  lemma OneMore(steps: seq<Step>, k: nat)
    requires k < |steps|
    ensures steps[..k + 1] == steps[..k] + [steps[k]]
  {
  }

  lemma NodeNext(p: Pool, steps: seq<Step>, k: nat, n: nat)
    requires Shape(p) && k < |steps| && Enabled(p, steps[k]) && GoalsTold(p, steps, k) && n < |p.nodes| <= |Next(p, steps[k]).nodes|
    requires NodeTold(p, steps, k, n)
    ensures NodeTold(Next(p, steps[k]), steps, k + 1, n)
  {
    var s := steps[k];
    if s.FinishPin? || s.WriteSize? {
      assert GoalTold(p.threads[s.t].goal, Request(steps, k, s.t));
    }
    CountNext(p, steps, k, n);
    SizeNext(p, steps, k, n);
  }

  lemma CountNext(p: Pool, steps: seq<Step>, k: nat, n: nat)
    requires Shape(p) && k < |steps| && Enabled(p, steps[k]) && n < |p.nodes| <= |Next(p, steps[k]).nodes| && NodeTold(p, steps, k, n)
    requires steps[k].FinishPin? ==> GoalTold(p.threads[steps[k].t].goal, Request(steps, k, steps[k].t))
    ensures var node := Next(p, steps[k]).nodes[n];
            && node.refs == Users(steps, k + 1, n) && node.iter == Releases(steps, k + 1, n)
            && (node.closed <==> Close(n) in steps[..k + 1])
  {
    OneMore(steps, k);
    if steps[k].AskClosed? || steps[k].CompareIter? || steps[k].TryEvict? {
      TicketNode(p, steps[k].t);
    }
  }

  lemma SizeNext(p: Pool, steps: seq<Step>, k: nat, n: nat)
    requires Shape(p) && k < |steps| && Enabled(p, steps[k]) && n < |p.nodes| <= |Next(p, steps[k]).nodes| && NodeTold(p, steps, k, n)
    requires steps[k].WriteSize? ==> GoalTold(p.threads[steps[k].t].goal, Request(steps, k, steps[k].t))
    ensures !Grown(steps, k + 1, n) ==> n < |Sizes(steps, k + 1)| && Next(p, steps[k]).nodes[n].size == Sizes(steps, k + 1)[n]
  {
    GrownNext(steps, k, n);
    SizesNext(steps, k);
    if steps[k].AskClosed? || steps[k].CompareIter? || steps[k].TryEvict? {
      TicketNode(p, steps[k].t);
    }
  }

  lemma GrownNext(steps: seq<Step>, k: nat, n: nat)
    requires k < |steps|
    ensures Grown(steps, k + 1, n) <==> Grown(steps, k, n) || (steps[k].WriteSize? && Serves(steps, k, steps[k].t, n))
  {
  }

  lemma SizesNext(steps: seq<Step>, k: nat)
    requires k < |steps|
    ensures Sizes(steps, k) <= Sizes(steps, k + 1)
  {
  }

  lemma FewerNodes(p: Pool, s: Step)
    requires Shape(p) && Enabled(p, s)
    ensures |Next(p, s).nodes| == |p.nodes| + if s.Register? then 1 else 0
    ensures |Next(p, s).threads| == |p.threads|
  {
    if s.AskClosed? || s.CompareIter? || s.TryEvict? {
      TicketNode(p, s.t);
    }
  }

  /** Nothing happens to a node that is not registered. */
  lemma NothingBefore(p: Pool, steps: seq<Step>, k: nat, n: nat)
    requires Shape(p) && k < |steps| && Enabled(p, steps[k]) && GoalsTold(p, steps, k) && n >= |p.nodes| && Unheard(steps, k, n)
    ensures Unheard(steps, k + 1, n)
  {
    OneMore(steps, k);
    if steps[k].FinishPin? || steps[k].WriteSize? {
      assert GoalTold(p.threads[steps[k].t].goal, Request(steps, k, steps[k].t));
    }
    GrownNext(steps, k, n);
  }

  lemma NodesNext(p: Pool, steps: seq<Step>, k: nat)
    requires Shape(p) && k < |steps| && Enabled(p, steps[k]) && GoalsTold(p, steps, k) && NodesTold(p, steps, k)
    ensures NodesTold(Next(p, steps[k]), steps, k + 1)
  {
    var p', j := Next(p, steps[k]), k + 1;
    FewerNodes(p, steps[k]);
    forall n | 0 <= n < |p'.nodes| ensures NodeTold(p', steps, j, n) {
      NodeNextOrNew(p, steps, k, n);
    }
    forall n | n >= |p'.nodes| ensures Unheard(steps, j, n) {
      assert Unheard(steps, k, n);
      NothingBefore(p, steps, k, n);
    }
  }

  lemma NodeNextOrNew(p: Pool, steps: seq<Step>, k: nat, n: nat)
    requires Shape(p) && k < |steps| && Enabled(p, steps[k]) && GoalsTold(p, steps, k) && NodesTold(p, steps, k) && n < |Next(p, steps[k]).nodes|
    ensures NodeTold(Next(p, steps[k]), steps, k + 1, n)
  {
    FewerNodes(p, steps[k]);
    if n < |p.nodes| {
      assert NodeTold(p, steps, k, n);
      NodeNext(p, steps, k, n);
    } else {
      assert Unheard(steps, k, n);
      NothingBefore(p, steps, k, n);
    }
  }

  lemma GoalNext(p: Pool, steps: seq<Step>, k: nat, t: nat)
    requires Shape(p) && k < |steps| && Enabled(p, steps[k]) && GoalsTold(p, steps, k) && t < |p.threads|
    ensures t < |Next(p, steps[k]).threads|
    ensures Next(p, steps[k]).threads[t].Busy? ==> GoalTold(Next(p, steps[k]).threads[t].goal, Request(steps, k + 1, t))
  {
    var s := steps[k];
    if s.AskClosed? || s.CompareIter? || s.TryEvict? {
      TicketNode(p, s.t);
    }
    assert p.threads[t].Busy? ==> GoalTold(p.threads[t].goal, Request(steps, k, t));
  }

  lemma QueueNext(p: Pool, steps: seq<Step>, k: nat)
    requires Shape(p) && k < |steps| && Enabled(p, steps[k]) && QueueTold(p, steps, k)
    requires steps[k].Unpin? ==> NodeTold(p, steps, k, steps[k].n)
    ensures QueueTold(Next(p, steps[k]), steps, k + 1)
  {
    var s := steps[k];
    if s.AskClosed? || s.CompareIter? || s.TryEvict? {
      TicketNode(p, s.t);
    } else if s.Unpin? {
      IssuedTail(Issued(steps, k), Taken(steps, k), Ticket(s.n, Releases(steps, k, s.n) + 1));
    }
  }

  lemma IssuedTail(issued: seq<Ticket>, taken: nat, tk: Ticket)
    requires taken <= |issued|
    ensures (issued + [tk])[taken..] == issued[taken..] + [tk]
  {
  }

  lemma GoalsNext(p: Pool, steps: seq<Step>, k: nat)
    requires Shape(p) && k < |steps| && Enabled(p, steps[k]) && GoalsTold(p, steps, k)
    ensures GoalsTold(Next(p, steps[k]), steps, k + 1)
  {
    var p', j := Next(p, steps[k]), k + 1;
    FewerNodes(p, steps[k]);
    forall t | 0 <= t < |p'.threads| && p'.threads[t].Busy? ensures GoalTold(p'.threads[t].goal, Request(steps, j, t)) {
      GoalNext(p, steps, k, t);
    }
  }

  lemma ToldNext(p: Pool, steps: seq<Step>, k: nat)
    requires Shape(p) && k < |steps| && Enabled(p, steps[k]) && Told(p, steps, k)
    ensures Told(Next(p, steps[k]), steps, k + 1)
  {
    if steps[k].Unpin? {
      assert NodeTold(p, steps, k, steps[k].n);
    }
    NodesNext(p, steps, k);
    GoalsNext(p, steps, k);
    QueueNext(p, steps, k);
  }

  lemma StartTold(p: Pool, steps: seq<Step>)
    requires Start(p)
    ensures Told(p, steps, 0)
  {
  }

  lemma {:induction false} RunTold(pools: seq<Pool>, steps: seq<Step>, k: nat)
    requires Run(pools, steps) && k < |pools|
    ensures Told(pools[k], steps, k)
  {
    if k == 0 {
      StartTold(pools[0], steps);
    } else {
      RunTold(pools, steps, k - 1);
      RunToldNext(pools, steps, k - 1);
    }
  }

  lemma RunToldNext(pools: seq<Pool>, steps: seq<Step>, k: nat)
    requires Run(pools, steps) && k < |steps| && Told(pools[k], steps, k)
    ensures Told(pools[k + 1], steps, k + 1)
  {
    var p, s := pools[k], steps[k];
    assert Shape(p) && Enabled(p, s) && pools[k + 1] == Next(p, s);
    ToldNext(p, steps, k);
  }

  // ----- what follows -----

  /** In every interleaving the reference count of a node is the number of pins it got minus
      the number of unpins, and it is closed exactly if somebody closed it. */
  lemma RefsAreUsers(pools: seq<Pool>, steps: seq<Step>, k: nat, n: nat)
    requires Run(pools, steps) && k < |pools| && n < |pools[k].nodes|
    ensures pools[k].nodes[n].refs == Users(steps, k, n)
    ensures pools[k].nodes[n].closed <==> exists i :: 0 <= i < k && steps[i] == Close(n)
  {
    RunTold(pools, steps, k);
    assert NodeTold(pools[k], steps, k, n);
    if i :| 0 <= i < k && steps[i] == Close(n) {
      assert steps[..k][i] == Close(n);
    }
  }

  /** A node with more pins than unpins that nobody has closed is loaded, at every point of
      every interleaving. */
  lemma InUseIsLoaded(pools: seq<Pool>, steps: seq<Step>, k: nat, n: nat)
    requires Run(pools, steps) && k < |pools| && n < |pools[k].nodes|
    requires Users(steps, k, n) > 0 && forall i :: 0 <= i < k ==> steps[i] != Close(n)
    ensures pools[k].nodes[n].loaded
  {
    RefsAreUsers(pools, steps, k, n);
    RunKeeps(pools, steps, k);
    assert NodeOk(pools[k].nodes[n]);
  }

  /** In every interleaving a node that nobody has grown has the size it was registered with,
      and a busy thread works for the node, and for the growth, of its last request. */
  lemma SizesAndGoals(pools: seq<Pool>, steps: seq<Step>, k: nat, n: nat, t: nat)
    requires Run(pools, steps) && k < |pools| && n < |pools[k].nodes| && At(pools[k], t)
    ensures |Sizes(steps, k)| == |pools[k].nodes|
    ensures !Grown(steps, k, n) ==> pools[k].nodes[n].size == Sizes(steps, k)[n]
    ensures GoalTold(pools[k].threads[t].goal, Request(steps, k, t))
  {
    RunTold(pools, steps, k);
    assert NodeTold(pools[k], steps, k, n);
  }

  /** In every interleaving the queue holds the tickets of the last releases in their order,
      without as many of the first as were taken. */
  lemma QueueIsHistory(pools: seq<Pool>, steps: seq<Step>, k: nat)
    requires Run(pools, steps) && k < |pools|
    ensures Taken(steps, k) <= |Issued(steps, k)| && pools[k].queue == Issued(steps, k)[Taken(steps, k)..]
  {
    RunTold(pools, steps, k);
  }

  // ----- quota and eviction, step by step -----

  /** In every interleaving a thread goes on for quota exactly if what it asks for fits the
      limit beside the active size, and gets it exactly if nobody changed that meanwhile. */
  lemma WhenGranted(pools: seq<Pool>, steps: seq<Step>, k: nat)
    requires Run(pools, steps) && k < |steps|
    ensures var p, p' := pools[k], pools[k + 1];
            match steps[k]
            case LoadQuota(t) =>
              p' == Stay(p, t, if p.active + p.threads[t].goal.size <= p.limit then Swap(p.active) else Take)
            case SwapQuota(t) =>
              if p.active == p.threads[t].stage.pre
              then p' == Stay(p, t, Granted).(active := p.active + p.threads[t].goal.size) else p' == Stay(p, t, Quota)
            case _ => true
  {
    RunKeeps(pools, steps, k);
    StepGranted(pools[k], steps[k]);
  }

  lemma StepGranted(p: Pool, s: Step)
    requires Inv(p) && Enabled(p, s)
    ensures match s
            case LoadQuota(t) =>
              Next(p, s) == Stay(p, t, if p.active + p.threads[t].goal.size <= p.limit then Swap(p.active) else Take)
            case SwapQuota(t) =>
              if p.active == p.threads[t].stage.pre
              then Next(p, s) == Stay(p, t, Granted).(active := p.active + p.threads[t].goal.size) else Next(p, s) == Stay(p, t, Quota)
            case _ => true
  {
    if s.LoadQuota? || s.SwapQuota? {
      assert ThreadOk(p, s.t);
      GrantIsSound(p.active, p.threads[s.t].goal.size, p.limit);
    }
  }

  /** The step takes the current ticket of a node that nobody uses. */
  ghost predicate Unloads(p: Pool, s: Step, n: nat) {
    && n < |p.nodes| && p.nodes[n].loaded
    && (s == Close(n) || (s.TryEvict? && At(p, s.t) && p.threads[s.t].stage == Evict(Ticket(n, p.nodes[n].iter)) && p.nodes[n].refs == 0))
  }

  /** A node is loaded by the end of a pin, and unloaded by its close or by the thread that has
      its current ticket while nobody uses it; by nothing else. */
  lemma WhenLoaded(p: Pool, s: Step, n: nat)
    requires Shape(p) && Enabled(p, s) && n < |p.nodes|
    ensures n < |Next(p, s).nodes|
    ensures p.nodes[n].loaded ==> (Next(p, s).nodes[n].loaded <==> !Unloads(p, s, n))
    ensures !p.nodes[n].loaded ==> (Next(p, s).nodes[n].loaded <==> s.FinishPin? && p.threads[s.t].goal.node == n)
  {
    if s.AskClosed? || s.CompareIter? || s.TryEvict? {
      TicketNode(p, s.t);
    }
  }

  /** A thread is done when it has its pin or its growth, has given the quota back, or finds no
      ticket left; before that it works on. */
  lemma WhenDone(p: Pool, s: Step, t: nat)
    requires Shape(p) && Enabled(p, s) && At(p, t)
    ensures t < |Next(p, s).threads|
    ensures Next(p, s).threads[t].Idle? <==>
              || s == FinishPin(t) || s == RollbackExpand(t) || s == WriteSize(t) || (s == DequeueTicket(t) && p.queue == [])
  {
    if s.AskClosed? || s.CompareIter? || s.TryEvict? {
      TicketNode(p, s.t);
    }
  }

  /** The thread looks at its ticket, or tries to evict with it. */
  predicate Looks(s: Step) {
    s.AskClosed? || s.CompareIter? || s.TryEvict?
  }

  ghost predicate InSomeHand(p: Pool, t: nat) {
    At(p, t) && (p.threads[t].stage.Hold? || p.threads[t].stage.Probe? || p.threads[t].stage.Evict?)
  }

  lemma TicketStep(p: Pool, steps: seq<Step>, k: nat)
    requires Shape(p) && k < |steps| && Enabled(p, steps[k]) && NodesTold(p, steps, k) && Looks(steps[k])
    ensures var s, p' := steps[k], Next(p, steps[k]);
            && InSomeHand(p, s.t) && At(p', s.t)
            && var tk, stage := p.threads[s.t].stage.tk, p'.threads[s.t].stage;
               match s
               case AskClosed(_) => stage == if Close(tk.node) in steps[..k] then Take else Probe(tk)
               case CompareIter(_) => stage == if tk.iter == Releases(steps, k, tk.node) then Evict(tk) else Take
               case _ => stage == if Unloads(p, s, tk.node) then Quota else Take
  {
    TicketNode(p, steps[k].t);
    assert NodeTold(p, steps, k, p.threads[steps[k].t].stage.tk.node);
  }

  /** What a thread does with a ticket in its hand: it drops the ticket of a closed node, one
      that is not of the node's last release, and one of a node that is in use; a ticket that
      passes all three unloads the node, and the thread asks for quota again. */
  lemma TicketFate(pools: seq<Pool>, steps: seq<Step>, k: nat)
    requires Run(pools, steps) && k < |steps| && Looks(steps[k])
    ensures var p, s, p' := pools[k], steps[k], pools[k + 1];
            && InSomeHand(p, s.t) && At(p', s.t)
            && var tk, stage := p.threads[s.t].stage.tk, p'.threads[s.t].stage;
               match s
               case AskClosed(_) => stage == if Close(tk.node) in steps[..k] then Take else Probe(tk)
               case CompareIter(_) => stage == if tk.iter == Releases(steps, k, tk.node) then Evict(tk) else Take
               case _ => stage == if Unloads(p, s, tk.node) then Quota else Take
  {
    RunTold(pools, steps, k);
    assert pools[k + 1] == Next(pools[k], steps[k]);
    TicketStep(pools[k], steps, k);
  }

  /** The thread is looking for something to evict. */
  predicate Looking(th: Thread) {
    th.Busy? && (th.stage.Take? || th.stage.Hold? || th.stage.Probe? || th.stage.Evict?)
  }

  /** Since some refusal, at j, thread t has not evicted anything. */
  ghost predicate RefusedAt(pools: seq<Pool>, steps: seq<Step>, k: nat, t: nat, j: nat)
    requires Run(pools, steps) && k < |pools|
  {
    && j < k && steps[j] == LoadQuota(t) && pools[j].active + pools[j].threads[t].goal.size > pools[j].limit
    && forall i, n {:trigger Unloads(pools[i], steps[i], n)} :: j < i < k && steps[i] == TryEvict(t) ==> !Unloads(pools[i], steps[i], n)
  }

  lemma LookingNext(p: Pool, s: Step, t: nat)
    requires Inv(p) && Enabled(p, s) && t < |p.threads| && t < |Next(p, s).threads| && Looking(Next(p, s).threads[t])
    ensures Looking(p.threads[t]) || (s == LoadQuota(t) && p.active + p.threads[t].goal.size > p.limit)
    ensures s == TryEvict(t) ==> forall n :: !Unloads(p, s, n)
  {
    StepGranted(p, s);
    LookingStep(p, s, t);
  }

  lemma LookingStep(p: Pool, s: Step, t: nat)
    requires Shape(p) && Enabled(p, s) && t < |p.threads| && t < |Next(p, s).threads| && Looking(Next(p, s).threads[t])
    ensures Looking(p.threads[t]) || (s == LoadQuota(t) && Next(p, s) == Stay(p, t, Take))
    ensures s == TryEvict(t) ==> forall n :: !Unloads(p, s, n)
  {
    if s.AskClosed? || s.CompareIter? || s.TryEvict? {
      TicketNode(p, s.t);
    }
  }

  lemma {:induction false} RefusedSince(pools: seq<Pool>, steps: seq<Step>, k: nat, t: nat) returns (j: nat)
    requires Run(pools, steps) && k < |pools| && t < |pools[k].threads| && Looking(pools[k].threads[t])
    ensures RefusedAt(pools, steps, k, t, j)
  {
    if k > 0 {
      j := k - 1;
      var looked := LookedBefore(pools, steps, k - 1, t);
      if looked {
        j := RefusedSince(pools, steps, k - 1, t);
        StillRefused(pools, steps, k - 1, t, j);
      }
    }
  }

  lemma LookedBefore(pools: seq<Pool>, steps: seq<Step>, k: nat, t: nat) returns (looked: bool)
    requires Run(pools, steps) && k < |steps| && t < |pools[k + 1].threads| && Looking(pools[k + 1].threads[t])
    ensures looked ==> t < |pools[k].threads| && Looking(pools[k].threads[t])
    ensures !looked ==> RefusedAt(pools, steps, k + 1, t, k)
    ensures steps[k] == TryEvict(t) ==> forall n :: !Unloads(pools[k], steps[k], n)
  {
    RunKeeps(pools, steps, k);
    FewerNodes(pools[k], steps[k]);
    LookingNext(pools[k], steps[k], t);
    looked := Looking(pools[k].threads[t]);
  }

  lemma StillRefused(pools: seq<Pool>, steps: seq<Step>, k: nat, t: nat, j: nat)
    requires Run(pools, steps) && k < |steps| && RefusedAt(pools, steps, k, t, j)
    requires steps[k] == TryEvict(t) ==> forall n :: !Unloads(pools[k], steps[k], n)
    ensures RefusedAt(pools, steps, k + 1, t, j)
  {
  }

  /** No more is evicted than needed: in every interleaving, before each node that a thread
      evicts, its request was refused after the node it evicted before. */
  lemma EvictsOnlyWhenRefused(pools: seq<Pool>, steps: seq<Step>, k: nat, t: nat) returns (j: nat)
    requires Run(pools, steps) && k < |steps| && steps[k] == TryEvict(t)
    ensures RefusedAt(pools, steps, k, t, j)
  {
    j := RefusedSince(pools, steps, k, t);
  }
}
