/** How the buffer protocol goes wrong: growths that are lost, and a thread that waits for
    itself. */
module BufferExamples {
  import opened Sequences
  import opened BufferNodes
  import opened BufferProtocol
  import opened BufferSafety
  import opened BufferQuota

  // ----- two threads grow one node -----

  /** From every state of every interleaving in which two threads have been granted quota to
      grow one node, both may read the size before either writes it, and the growth written
      first is gone for good; if the node is closed, both are. */
  lemma TwoGrowersLose(p: Pool, t: nat, u: nat) returns (p1: Pool, p2: Pool, p3: Pool, p4: Pool)
    requires Inv(p) && t != u && Enabled(p, ReadSize(t)) && Enabled(p, ReadSize(u))
    requires p.threads[t].goal.node == p.threads[u].goal.node
    ensures Leads(p, ReadSize(t), p1) && Leads(p1, ReadSize(u), p2)
    ensures Leads(p2, WriteSize(t), p3) && Leads(p3, WriteSize(u), p4)
    ensures Lost(p4) == Lost(p) + p.threads[t].goal.size + Misplaced(p, u)
  {
    p1, p2 := BothRead(p, t, u);
    p3, p4 := BothWrite(p2, t, u);
  }

  ghost predicate Leads(p: Pool, s: Step, p': Pool) {
    Shape(p) && Enabled(p, s) && p' == Next(p, s)
  }

  lemma BothRead(p: Pool, t: nat, u: nat) returns (p1: Pool, p2: Pool)
    requires Inv(p) && t != u && Enabled(p, ReadSize(t)) && Enabled(p, ReadSize(u))
    requires p.threads[t].goal.node == p.threads[u].goal.node
    ensures Leads(p, ReadSize(t), p1) && Leads(p1, ReadSize(u), p2)
    ensures Inv(p2) && Lost(p2) == Lost(p) && Racing(p2, t, u) && p2.nodes == p.nodes
    ensures p2.threads[t].goal == p.threads[t].goal && p2.threads[u].goal == p.threads[u].goal
  {
    p1 := ReadOn(p, t);
    ReadsRace(p, t, u, p1);
    p2 := ReadOn(p1, u);
  }

  lemma ReadOn(p: Pool, t: nat) returns (p': Pool)
    requires Inv(p) && Enabled(p, ReadSize(t))
    ensures Leads(p, ReadSize(t), p') && Inv(p') && Lost(p') == Lost(p)
  {
    p' := Next(p, ReadSize(t));
    Forward(p, ReadSize(t));
  }

  lemma ReadsRace(p: Pool, t: nat, u: nat, p1: Pool)
    requires t != u && Leads(p, ReadSize(t), p1) && Enabled(p, ReadSize(u)) && Shape(p1)
    requires p.threads[t].goal.node == p.threads[u].goal.node
    ensures Enabled(p1, ReadSize(u))
    ensures var p2 := Next(p1, ReadSize(u));
            p2.nodes == p.nodes && p2.threads[t].goal == p.threads[t].goal && p2.threads[u].goal == p.threads[u].goal && (Shape(p2) ==> Racing(p2, t, u))
  {
  }

  lemma BothWrite(p: Pool, t: nat, u: nat) returns (p1: Pool, p2: Pool)
    requires Inv(p) && Racing(p, t, u)
    ensures Leads(p, WriteSize(t), p1) && Leads(p1, WriteSize(u), p2)
    ensures Lost(p2) == Lost(p) + p.threads[t].goal.size + Misplaced(p, u)
  {
    p1 := Next(p, WriteSize(t));
    Forward(p, WriteSize(t));
    SecondWrites(p, t, u);
    p2 := Next(p1, WriteSize(u));
    Forward(p1, WriteSize(u));
  }

  /** Both threads are about to write over the size the node has now. */
  ghost predicate Racing(p: Pool, t: nat, u: nat)
    requires Shape(p)
  {
    && t != u && At(p, t) && At(p, u) && p.threads[t].goal.node == p.threads[u].goal.node
    && p.threads[t].stage == Adding(p.nodes[p.threads[t].goal.node].size) == p.threads[u].stage
  }

  lemma SecondWrites(p: Pool, t: nat, u: nat)
    requires Shape(p) && Racing(p, t, u)
    requires forall n :: 0 <= n < |p.nodes| ==> NodeOk(p.nodes[n])
    ensures Enabled(p, WriteSize(t))
    ensures var p' := Next(p, WriteSize(t));
            && Enabled(p', WriteSize(u))
            && (Shape(p') ==> Overwritten(p, WriteSize(t)) + Overwritten(p', WriteSize(u)) == p.threads[t].goal.size + Misplaced(p, u))
  {
  }

  /** What the thread's growth loses if its node is not loaded any more. */
  ghost function Misplaced(p: Pool, t: nat): nat
    requires Shape(p) && At(p, t)
  {
    if p.nodes[p.threads[t].goal.node].loaded then 0 else p.threads[t].goal.size
  }

  lemma Extend(pools: seq<Pool>, steps: seq<Step>, s: Step)
    requires Run(pools, steps) && Shape(pools[|steps|]) && Enabled(pools[|steps|], s)
    ensures Run(pools + [Next(pools[|steps|], s)], steps + [s])
  {
    var pools', steps' := pools + [Next(pools[|steps|], s)], steps + [s];
    forall i | 0 <= i < |steps'| ensures Shape(pools'[i]) && Enabled(pools'[i], steps'[i]) && pools'[i + 1] == Next(pools'[i], steps'[i]) {
      if i < |steps| {
        assert steps'[i] == steps[i] && pools'[i] == pools[i] && pools'[i + 1] == pools[i + 1];
      }
    }
  }

  /** Every interleaving that gets two threads to grow one node goes on to lose quota. */
  lemma GrowersGoOnToLose(pools: seq<Pool>, steps: seq<Step>, t: nat, u: nat) returns (pools': seq<Pool>, steps': seq<Step>)
    requires Run(pools, steps) && Shape(pools[|steps|]) && t != u && Enabled(pools[|steps|], ReadSize(t)) && Enabled(pools[|steps|], ReadSize(u))
    requires pools[|steps|].threads[t].goal.node == pools[|steps|].threads[u].goal.node
    ensures Run(pools', steps') && steps <= steps'
    ensures Lost(pools'[|steps'|]) == Lost(pools[|steps|]) + pools[|steps|].threads[t].goal.size + Misplaced(pools[|steps|], u)
  {
    RunKeeps(pools, steps, |steps|);
    var p1, p2, p3, p4 := TwoGrowersLose(pools[|steps|], t, u);
    pools', steps' := TwoLonger(pools, steps, ReadSize(t), p1, ReadSize(u), p2);
    pools', steps' := TwoLonger(pools', steps', WriteSize(t), p3, WriteSize(u), p4);
  }

  lemma TwoLonger(pools: seq<Pool>, steps: seq<Step>, s1: Step, p1: Pool, s2: Step, p2: Pool) returns (pools': seq<Pool>, steps': seq<Step>)
    requires Run(pools, steps) && Leads(pools[|steps|], s1, p1) && Leads(p1, s2, p2)
    ensures Run(pools', steps') && steps' == steps + [s1, s2] && pools' == pools + [p1, p2]
  {
    Extend(pools, steps, s1);
    pools', steps' := pools + [p1], steps + [s1];
    Extend(pools', steps', s2);
    pools', steps' := pools' + [p2], steps' + [s2];
  }

  // ----- a node is closed while it is grown -----

  /** From every state of every interleaving, a growth that is granted and not yet used is
      lost if the node is closed now. */
  lemma CloseLosesGrowth(pools: seq<Pool>, steps: seq<Step>, t: nat) returns (pools': seq<Pool>, steps': seq<Step>)
    requires Run(pools, steps) && Shape(pools[|steps|]) && Enabled(pools[|steps|], ReadSize(t))
    ensures Run(pools', steps') && pools <= pools' && steps <= steps'
    ensures forall i :: |steps| <= i < |steps'| ==> !steps'[i].ExpandStart?
    ensures Lost(pools'[|steps'|]) == Lost(pools[|steps|]) + pools[|steps|].threads[t].goal.size
  {
    pools', steps' := ClosedNow(pools, steps, t);
    RunKeeps(pools', steps', |steps'|);
    var p1, p2 := GrowsClosed(pools'[|steps'|], t);
    pools', steps' := TwoLonger(pools', steps', ReadSize(t), p1, WriteSize(t), p2);
  }

  /** The run goes on by closing the node that the thread grows, unless it is closed. */
  lemma ClosedNow(pools: seq<Pool>, steps: seq<Step>, t: nat) returns (pools': seq<Pool>, steps': seq<Step>)
    requires Run(pools, steps) && Shape(pools[|steps|]) && Enabled(pools[|steps|], ReadSize(t))
    ensures Run(pools', steps') && pools <= pools' && steps <= steps'
    ensures forall i :: |steps| <= i < |steps'| ==> !steps'[i].ExpandStart?
    ensures var p, p' := pools[|steps|], pools'[|steps'|];
            && p'.threads == p.threads && Lost(p') == Lost(p)
            && p.threads[t].goal.node < |p'.nodes| && p'.nodes[p.threads[t].goal.node].closed
  {
    RunKeeps(pools, steps, |steps|);
    var p, n := pools[|steps|], pools[|steps|].threads[t].goal.node;
    pools', steps' := pools, steps;
    if !p.nodes[n].closed {
      CloseGrown(p, t);
      Extend(pools, steps, Close(n));
      pools', steps' := pools + [Next(p, Close(n))], steps + [Close(n)];
    }
  }

  lemma CloseGrown(p: Pool, t: nat)
    requires Inv(p) && Enabled(p, ReadSize(t)) && !p.nodes[p.threads[t].goal.node].closed
    ensures var n := p.threads[t].goal.node;
            && Enabled(p, Close(n))
            && Next(p, Close(n)).threads == p.threads && Next(p, Close(n)).nodes[n].closed && Lost(Next(p, Close(n))) == Lost(p)
  {
    GrownIsUnlocked(p, t);
    Forward(p, Close(p.threads[t].goal.node));
  }

  /** A node that is grown is in use, so nobody is inside a pin that loads it. */
  lemma GrownIsUnlocked(p: Pool, t: nat)
    requires Inv(p) && Enabled(p, ReadSize(t))
    ensures Unlocked(p, p.threads[t].goal.node)
  {
    GrownIsPinned(p, t);
    forall u | 0 <= u < |p.threads| ensures !p.threads[u].Pins(p.threads[t].goal.node) {
      assert ThreadOk(p, u);
    }
  }

  lemma GrowsClosed(p: Pool, t: nat) returns (p1: Pool, p2: Pool)
    requires Inv(p) && Enabled(p, ReadSize(t)) && p.nodes[p.threads[t].goal.node].closed
    ensures Leads(p, ReadSize(t), p1) && Leads(p1, WriteSize(t), p2)
    ensures Lost(p2) == Lost(p) + p.threads[t].goal.size
  {
    assert NodeOk(p.nodes[p.threads[t].goal.node]);
    p1 := ReadOn(p, t);
    p2 := Next(p1, WriteSize(t));
    Forward(p1, WriteSize(t));
  }

  // ----- losing runs -----

  /** Two threads and a node of size 1: one thread pins it, both grow it by 1. */
  ghost function RacePool(k: nat): Pool
    requires k <= 12
  {
    var active := if k < 4 then 0 else if k < 9 then 1 else if k < 12 then 2 else 3;
    var node := Node(k >= 5, 1, 0, false, if k < 5 then 0 else if k < 6 then 1 else 2);
    var pin, grow := ToPin(0, 1), ToExpand(0, 1);
    var first :=
      if k == 2 then Busy(pin, Quota, 0) else if k == 3 then Busy(pin, Swap(0), 0) else if k == 4 then Busy(pin, Granted, 0)
      else if k < 7 then Idle
      else if k == 7 then Busy(grow, Quota, 0) else if k == 8 then Busy(grow, Swap(1), 0)
      else Busy(grow, Granted, 0);
    var second :=
      if k < 10 then Idle else if k == 10 then Busy(grow, Quota, 0) else if k == 11 then Busy(grow, Swap(2), 0) else Busy(grow, Granted, 0);
    Pool(9, active, if k == 0 then [] else [node], [], [first, second], if k < 2 then 0 else 1,
         if k == 0 then [] else [0], if k == 0 then [] else [if k < 5 then 0 else 1], 0)
  }

  ghost function RaceStep(k: nat): Step {
    if k == 0 then Register(1)
    else if k == 1 then PinStart(0, 0)
    else if k == 2 || k == 7 then LoadQuota(0)
    else if k == 3 || k == 8 then SwapQuota(0)
    else if k == 4 then FinishPin(0)
    else if k == 5 then PinLoaded(0)
    else if k == 6 then ExpandStart(0, 0, 1)
    else if k == 9 then ExpandStart(1, 0, 1)
    else if k == 10 then LoadQuota(1)
    else SwapQuota(1)
  }

  lemma RaceGrowers(a: Thread, b: Thread)
    ensures Growers([a, b], 0) == One(a.Expands(0)) + One(b.Expands(0))
  {
    assert [a, b][..1] == [a] && [a][..0] == [];
    assert Growers([a], 0) == One(a.Expands(0));
  }

  lemma RaceGoesOn(k: nat)
    requires k < 12
    ensures Shape(RacePool(k)) && Enabled(RacePool(k), RaceStep(k)) && Next(RacePool(k), RaceStep(k)) == RacePool(k + 1)
  {
    if k < 4 {
      RaceStarts(k);
    } else if k < 6 {
      RacePins(k);
    } else {
      RaceGrows(k);
    }
  }

  lemma RaceGrows(k: nat)
    requires 6 <= k < 12
    ensures Shape(RacePool(k)) && Enabled(RacePool(k), RaceStep(k)) && Next(RacePool(k), RaceStep(k)) == RacePool(k + 1)
  {
    var p := RacePool(k);
    RaceGrowers(p.threads[0], p.threads[1]);
  }

  lemma RacePins(k: nat)
    requires 4 <= k < 6
    ensures Shape(RacePool(k)) && Enabled(RacePool(k), RaceStep(k)) && Next(RacePool(k), RaceStep(k)) == RacePool(k + 1)
  {
  }

  lemma RaceStarts(k: nat)
    requires k < 4
    ensures Shape(RacePool(k)) && Enabled(RacePool(k), RaceStep(k)) && Next(RacePool(k), RaceStep(k)) == RacePool(k + 1)
  {
  }

  lemma {:induction false} RaceRun(k: nat) returns (pools: seq<Pool>, steps: seq<Step>)
    requires k <= 12
    ensures Run(pools, steps) && |steps| == k
    ensures forall i {:trigger pools[i]} :: 0 <= i <= k ==> pools[i] == RacePool(i)
    ensures forall i {:trigger steps[i]} :: 0 <= i < k ==> steps[i] == RaceStep(i)
  {
    if k == 0 {
      pools, steps := [RacePool(0)], [];
    } else {
      pools, steps := RaceRun(k - 1);
      RaceGoesOn(k - 1);
      Extend(pools, steps, RaceStep(k - 1));
      pools, steps := pools + [RacePool(k)], steps + [RaceStep(k - 1)];
    }
  }

  /** An interleaving from the start after which quota is lost. */
  lemma QuotaCanBeLost() returns (pools: seq<Pool>, steps: seq<Step>)
    ensures Run(pools, steps) && Lost(pools[|steps|]) == 1
  {
    pools, steps := RaceRun(12);
    RaceBalanced(12);
    pools, steps := GrowersGoOnToLose(pools, steps, 0, 1);
  }

  lemma RaceBalanced(k: nat)
    requires 9 <= k <= 12
    ensures Lost(RacePool(k)) == 0
  {
    var p := RacePool(k);
    assert p.threads[..1] == [p.threads[0]] && [p.threads[0]][..0] == [];
    assert Total([p.threads[0]], RESERVED) == 1 && Total(p.threads, RESERVED) == 1 + p.threads[1].Reserved();
    assert p.nodes[..0] == [] && p.nodes[0].Held() == 1;
    assert LoadedSize(p.nodes) == Total(p.nodes[..0], HELD) + HELD(p.nodes[0]);
  }

  /** An interleaving with a single growth after which quota is lost: the node is closed
      between the grant and the new size. */
  lemma OneGrowerCanLose() returns (pools: seq<Pool>, steps: seq<Step>)
    ensures Run(pools, steps) && Lost(pools[|steps|]) == 1
    ensures forall i, j :: 0 <= i < j < |steps| ==> !(steps[i].ExpandStart? && steps[j].ExpandStart?)
  {
    pools, steps := RaceRun(9);
    RaceBalanced(9);
    var before := steps;
    pools, steps := CloseLosesGrowth(pools, steps, 0);
    forall i | 0 <= i < |steps| && steps[i].ExpandStart? ensures i == 6 {
      assert i < 9 && before[i] == steps[i];
    }
  }

  // ----- a closed node is pinned again -----

  /** Steps that the code allows, pinning closed nodes included. */
  ghost predicate AnyRun(pools: seq<Pool>, steps: seq<Step>) {
    && |pools| == |steps| + 1 && Start(pools[0])
    && (forall i {:trigger steps[i]} :: 0 <= i < |steps| ==> Shape(pools[i]) && Possible(pools[i], steps[i]))
    && (forall i {:trigger steps[i]} :: 0 <= i < |steps| ==> pools[i + 1] == Next(pools[i], steps[i]))
  }

  /** One thread, room for one of two nodes of size 1. The first node is pinned, released and
      closed, the second is pinned, and then the first is pinned again: there is no room, and
      the only ticket is of the node the thread has locked. */
  ghost function StuckPool(k: nat): Pool
    requires k <= 15
  {
    var first := Node(6 <= k < 8, 1, if k < 7 then 0 else 1, k >= 8, if k == 6 then 1 else 0);
    var second := Node(k >= 12, 1, 0, false, if k < 12 then 0 else 1);
    var thread :=
      if k == 3 then Busy(ToPin(0, 1), Quota, 0) else if k == 4 then Busy(ToPin(0, 1), Swap(0), 0)
      else if k == 5 then Busy(ToPin(0, 1), Granted, 0)
      else if k == 9 then Busy(ToPin(1, 1), Quota, 2) else if k == 10 then Busy(ToPin(1, 1), Swap(0), 2)
      else if k == 11 then Busy(ToPin(1, 1), Granted, 2)
      else if k == 13 then Busy(ToPin(0, 1), Quota, 3) else if k == 14 then Busy(ToPin(0, 1), Take, 3)
      else if k == 15 then Busy(ToPin(0, 1), Hold(Ticket(0, 1)), 3)
      else Idle;
    Pool(1, if 5 <= k < 8 || k >= 11 then 1 else 0,
         if k == 0 then [] else if k == 1 then [first] else [first, second],
         if 7 <= k < 15 then [Ticket(0, 1)] else [], [thread],
         if k < 3 then 0 else if k < 7 then 1 else if k < 9 then 2 else if k < 13 then 3 else 4,
         if k == 0 then [] else if k == 1 then [0] else [if k < 7 then 0 else 1, 0],
         if k == 0 then [] else if k == 1 then [0] else [if 6 <= k < 8 then 1 else 0, if k < 12 then 0 else 1], 0)
  }

  ghost function StuckStep(k: nat): Step {
    if k < 2 then Register(1)
    else if k == 2 || k == 12 then PinStart(0, 0)
    else if k == 8 then PinStart(0, 1)
    else if k == 3 || k == 9 || k == 13 then LoadQuota(0)
    else if k == 4 || k == 10 then SwapQuota(0)
    else if k == 5 || k == 11 then FinishPin(0)
    else if k == 6 then Unpin(0)
    else if k == 7 then Close(0)
    else DequeueTicket(0)
  }

  lemma StuckGoesOn(k: nat)
    requires k < 15
    ensures StuckAt(k)
  {
    if k < 5 {
      StuckEarly(k);
    } else if k < 7 {
      StuckMiddle(k);
    } else if k < 11 {
      StuckOn(k);
    } else {
      StuckLate(k);
    }
  }

  ghost predicate StuckAt(k: nat)
    requires k < 15
  {
    Shape(StuckPool(k)) && Possible(StuckPool(k), StuckStep(k)) && Next(StuckPool(k), StuckStep(k)) == StuckPool(k + 1)
  }

  lemma StuckEarly(k: nat)
    requires k < 5
    ensures StuckAt(k)
  {
  }

  lemma StuckMiddle(k: nat)
    requires 5 <= k < 7
    ensures StuckAt(k)
  {
  }

  lemma StuckOn(k: nat)
    requires 7 <= k < 11
    ensures StuckAt(k)
  {
  }

  lemma StuckLate(k: nat)
    requires 11 <= k < 15
    ensures StuckAt(k)
  {
  }

  lemma {:induction false} StuckRun(k: nat) returns (pools: seq<Pool>, steps: seq<Step>)
    requires k <= 15
    ensures AnyRun(pools, steps) && pools[|steps|] == StuckPool(k)
  {
    if k == 0 {
      pools, steps := [StuckPool(0)], [];
    } else {
      pools, steps := StuckRun(k - 1);
      StuckGoesOn(k - 1);
      ExtendAny(pools, steps, StuckStep(k - 1));
      pools, steps := pools + [StuckPool(k)], steps + [StuckStep(k - 1)];
    }
  }

  lemma ExtendAny(pools: seq<Pool>, steps: seq<Step>, s: Step)
    requires AnyRun(pools, steps) && Shape(pools[|steps|]) && Possible(pools[|steps|], s)
    ensures AnyRun(pools + [Next(pools[|steps|], s)], steps + [s])
  {
    var pools', steps' := pools + [Next(pools[|steps|], s)], steps + [s];
    forall i | 0 <= i < |steps'| ensures Shape(pools'[i]) && Possible(pools'[i], steps'[i]) && pools'[i + 1] == Next(pools'[i], steps'[i]) {
      if i < |steps| {
        assert steps'[i] == steps[i] && pools'[i] == pools[i] && pools'[i + 1] == pools[i + 1];
      }
    }
  }

  /** That callers pin open nodes only is needed for freedom from deadlock: pinning a closed
      node, a thread can come to wait for the lock it holds, with nobody else at work. */
  lemma PinClosedDeadlocks() returns (pools: seq<Pool>, steps: seq<Step>)
    ensures AnyRun(pools, steps)
    ensures var p := pools[|steps|];
            && |p.threads| == 1 && At(p, 0) && p.threads[0].stage.Hold? && p.threads[0].Pins(p.threads[0].stage.tk.node)
            && forall s :: Shape(p) && Possible(p, s) ==> Next(p, s).threads == p.threads
  {
    pools, steps := StuckRun(15);
  }
}
