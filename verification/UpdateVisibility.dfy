/** Who may read an update node: the visibility test on nodes that belong to transactions of
    the pipeline. A node is stamped while its transaction is prepared and released when the
    transaction is applied; a merge node belongs to nobody. */
module UpdateVisibility {
  import opened Options
  import opened Mvcc
  import opened MvccInvariant
  import opened MvccCreators
  import opened MvccRuns
  import opened MvccOrder
  import opened MvccSnapshot

  datatype UpdateNode = UpdateNode(txn: Option<nat>, commit: Option<nat>)

  /** The pipeline and the nodes of a chain in the order they were made. */
  datatype World = World(s: State, nodes: seq<UpdateNode>)

  datatype Act =
    | Pipeline(ev: Event)
    | Open(t: nat)
    | Stamp(i: nat)
    | Release(i: nat)
    | Merge(i: nat)

  /** A node of a transaction that is between its timestamp and its end. */
  predicate Preparing(w: World, i: nat) {
    && i < |w.nodes| && w.nodes[i].txn.Some? && w.nodes[i].txn.value < |w.s.txns|
    && var state := w.s.txns[w.nodes[i].txn.value].state; state.Committing? || state.Rollbacking?
  }

  /** A running transaction opens a node. The node is stamped while its transaction is
      prepared, which may still end in a rollback, and released when a commit is applied. A
      merge node gets the stamp of the newest node it sums up. */
  ghost predicate Allowed(w: World, a: Act) {
    match a
    case Pipeline(ev) => Shape(w.s) && Enabled(w.s, ev)
    case Open(t) => Running(w.s, t)
    case Stamp(i) => Preparing(w, i) && w.nodes[i].commit.None?
    case Release(i) => Preparing(w, i) && w.nodes[i].commit.Some? && w.s.txns[w.nodes[i].txn.value].state.Committing?
    case Merge(i) => i < |w.nodes| && w.nodes[i].commit.Some?
  }

  ghost function After(w: World, a: Act): World
    requires Allowed(w, a)
  {
    match a
    case Pipeline(ev) => w.(s := Step(w.s, ev))
    case Open(t) => w.(nodes := w.nodes + [UpdateNode(Some(t), None)])
    case Stamp(i) => w.(nodes := w.nodes[i := w.nodes[i].(commit := w.s.txns[w.nodes[i].txn.value].commit)])
    case Release(i) => w.(nodes := w.nodes[i := w.nodes[i].(txn := None)])
    case Merge(i) => w.(nodes := w.nodes + [UpdateNode(None, w.nodes[i].commit)])
  }

  /** The visibility test. Waiting for a committing transaction yields the state read before
      the wait. */
  predicate CanRead(w: World, r: nat, i: nat)
    requires r < |w.s.txns| && i < |w.nodes| && (w.nodes[i].txn.Some? ==> w.nodes[i].txn.value < |w.s.txns|)
  {
    var node, start := w.nodes[i], w.s.txns[r].start;
    if node.txn.None? then node.commit.Some? && node.commit.value < start
    else if node.txn.value == r then true
    else if node.commit.None? then false
    else if node.commit.value > start then false
    else !w.s.txns[node.txn.value].state.Rollbacked?
  }

  // ----- the invariant -----

  ghost predicate IsCommit(s: State, ts: nat) {
    exists t :: 0 <= t < |s.txns| && s.txns[t].commit == Some(ts)
  }

  /** A stamp is the commit timestamp of a transaction, of the owner if there is one. */
  ghost predicate UpdateOk(s: State, node: UpdateNode) {
    && (node.txn.Some? ==> node.txn.value < |s.txns| && (node.commit.Some? ==> node.commit == s.txns[node.txn.value].commit))
    && (node.txn.None? ==> node.commit.Some?)
    && (node.commit.Some? ==> IsCommit(s, node.commit.value))
  }

  ghost predicate WorldInv(w: World) {
    Inv(w.s) && forall i {:trigger w.nodes[i]} :: 0 <= i < |w.nodes| ==> UpdateOk(w.s, w.nodes[i])
  }

  /** A commit timestamp stays. */
  lemma StepKeepsCommits(s: State, ev: Event, t: nat)
    requires Inv(s) && Enabled(s, ev) && t < |s.txns| && s.txns[t].commit.Some?
    ensures t < |Step(s, ev).txns| && Step(s, ev).txns[t].commit == s.txns[t].commit
  {
    StepQueues(s, ev);
    assert TxnOk(s.txns[t], s.clock);
  }

  lemma StepKeepsUpdate(s: State, ev: Event, node: UpdateNode)
    requires Inv(s) && Enabled(s, ev) && UpdateOk(s, node)
    ensures UpdateOk(Step(s, ev), node)
  {
    if node.commit.Some? {
      var t :| 0 <= t < |s.txns| && s.txns[t].commit == node.commit;
      StepKeepsCommits(s, ev, t);
    }
    if node.txn.Some? {
      StepTxn(s, ev, node.txn.value);
      if node.commit.Some? {
        StepKeepsCommits(s, ev, node.txn.value);
      }
    }
  }

  lemma ActKeeps(w: World, a: Act)
    requires WorldInv(w) && Allowed(w, a)
    ensures WorldInv(After(w, a))
  {
    var w' := After(w, a);
    if a.Pipeline? {
      StepKeeps(w.s, a.ev);
      forall i | 0 <= i < |w'.nodes| ensures UpdateOk(w'.s, w'.nodes[i]) {
        StepKeepsUpdate(w.s, a.ev, w.nodes[i]);
      }
    } else {
      forall i | 0 <= i < |w'.nodes| ensures UpdateOk(w'.s, w'.nodes[i]) {
        NodeKeeps(w, a, i);
      }
    }
  }

  lemma NodeKeeps(w: World, a: Act, i: nat)
    requires WorldInv(w) && Allowed(w, a) && !a.Pipeline? && i < |After(w, a).nodes|
    ensures UpdateOk(w.s, After(w, a).nodes[i])
  {
    if a.Stamp? && a.i == i {
      var t := w.nodes[i].txn.value;
      assert TxnOk(w.s.txns[t], w.s.clock);
      assert IsCommit(w.s, w.s.txns[t].commit.value);
    } else if i < |w.nodes| {
      assert UpdateOk(w.s, w.nodes[i]);
    } else if a.Merge? {
      assert UpdateOk(w.s, w.nodes[a.i]);
    }
  }

  // ----- what the test means -----

  /** The read view of updates: the reader's own, and what was committed before it started. */
  ghost predicate Visible(w: World, r: nat, i: nat)
    requires r < |w.s.txns| && i < |w.nodes| && UpdateOk(w.s, w.nodes[i])
  {
    var node := w.nodes[i];
    || node.txn == Some(r)
    || (node.commit.Some? && node.commit.value < w.s.txns[r].start && (node.txn.Some? ==> !Undone(w.s.txns[node.txn.value])))
  }

  /** Stamped before the reader started, and its transaction is being rolled back. */
  ghost predicate Dangling(w: World, r: nat, i: nat) {
    && r < |w.s.txns| && Preparing(w, i) && w.s.txns[w.nodes[i].txn.value].state.Rollbacking?
    && w.nodes[i].commit.Some? && w.nodes[i].commit.value < w.s.txns[r].start
  }

  lemma StampIsNoStart(s: State, node: UpdateNode, r: nat)
    requires Inv(s) && UpdateOk(s, node) && node.commit.Some? && r < |s.txns|
    ensures node.commit.value != s.txns[r].start
  {
    var t :| 0 <= t < |s.txns| && s.txns[t].commit == node.commit;
    assert s.txns[t].commit != Some(s.txns[r].start);
  }

  /** The test is the read view exactly if the node is not the stamped node of a transaction
      on its way back. */
  lemma CanReadIsVisibleIff(w: World, r: nat, i: nat)
    requires WorldInv(w) && Running(w.s, r) && i < |w.nodes|
    ensures UpdateOk(w.s, w.nodes[i]) && ((CanRead(w, r, i) <==> Visible(w, r, i)) <==> !Dangling(w, r, i))
  {
    assert UpdateOk(w.s, w.nodes[i]) && TxnOk(w.s.txns[r], w.s.clock);
    if w.nodes[i].commit.Some? {
      StampIsNoStart(w.s, w.nodes[i], r);
    }
    if w.nodes[i].txn.Some? {
      assert TxnOk(w.s.txns[w.nodes[i].txn.value], w.s.clock);
    }
  }

  // ----- when an answer changes -----

  predicate ByReader(a: Act, r: nat) {
    (a.Pipeline? && By(a.ev, r)) || (a.Open? && a.t == r)
  }

  /** The node's transaction has a timestamp from before the reader's start, and the node is
      not stamped yet or will have to go: the answer for it is still open. */
  ghost predicate Unsettled(w: World, r: nat, i: nat) {
    && r < |w.s.txns| && Preparing(w, i) && w.nodes[i].txn != Some(r)
    && var owner := w.s.txns[w.nodes[i].txn.value];
       owner.commit.Some? && owner.commit.value < w.s.txns[r].start && (w.nodes[i].commit.None? || owner.state.Rollbacking?)
  }

  /** The step at which an open answer falls: the node is stamped, or its transaction ends in
      a rollback. */
  ghost predicate Decides(w: World, a: Act, i: nat) {
    && i < |w.nodes| && w.nodes[i].txn.Some?
    && (if w.nodes[i].commit.None? then a == Stamp(i)
        else a == Pipeline(EvApply) && w.s.prepared != [] && w.s.prepared[0].txn == w.nodes[i].txn.value)
  }

  /** A step of somebody else changes the answer for a node exactly if the answer was open
      and the step decides it. */
  lemma AnswerChangesIff(w: World, a: Act, r: nat, i: nat)
    requires WorldInv(w) && Allowed(w, a) && Running(w.s, r) && !ByReader(a, r) && i < |w.nodes|
    ensures WorldInv(After(w, a)) && Running(After(w, a).s, r) && i < |After(w, a).nodes|
    ensures UpdateOk(w.s, w.nodes[i]) && UpdateOk(After(w, a).s, After(w, a).nodes[i])
    ensures CanRead(After(w, a), r, i) != CanRead(w, r, i) <==> Unsettled(w, r, i) && Decides(w, a, i)
  {
    ActKeeps(w, a);
    assert UpdateOk(w.s, w.nodes[i]) && UpdateOk(After(w, a).s, After(w, a).nodes[i]);
    if w.nodes[i].txn.Some? {
      assert TxnOk(w.s.txns[w.nodes[i].txn.value], w.s.clock);
    }
    if a.Pipeline? {
      PipelineAnswer(w, a.ev, r, i);
    } else {
      NodeAnswer(w, a, r, i);
    }
  }

  lemma NodeAnswer(w: World, a: Act, r: nat, i: nat)
    requires WorldInv(w) && Allowed(w, a) && Running(w.s, r) && !a.Pipeline? && !ByReader(a, r) && i < |w.nodes|
    requires UpdateOk(w.s, w.nodes[i]) && UpdateOk(w.s, After(w, a).nodes[i])
    ensures CanRead(After(w, a), r, i) != CanRead(w, r, i) <==> Unsettled(w, r, i) && Decides(w, a, i)
  {
    assert TxnOk(w.s.txns[r], w.s.clock);
    if After(w, a).nodes[i].commit.Some? {
      StampIsNoStart(w.s, After(w, a).nodes[i], r);
    }
    if w.nodes[i].txn.Some? {
      assert TxnOk(w.s.txns[w.nodes[i].txn.value], w.s.clock);
    }
    NodeAnswerOnly(w, a, r, i);
  }

  lemma NodeAnswerOnly(w: World, a: Act, r: nat, i: nat)
    requires Allowed(w, a) && !a.Pipeline? && r < |w.s.txns| && w.s.txns[r].state.Active? && i < |w.nodes|
    requires UpdateOk(w.s, w.nodes[i]) && UpdateOk(w.s, After(w, a).nodes[i])
    requires After(w, a).nodes[i].commit != Some(w.s.txns[r].start)
    requires w.nodes[i].txn.Some? ==> TxnOk(w.s.txns[w.nodes[i].txn.value], w.s.clock)
    ensures CanRead(After(w, a), r, i) != CanRead(w, r, i) <==> Unsettled(w, r, i) && Decides(w, a, i)
  {
  }

  lemma PipelineAnswer(w: World, ev: Event, r: nat, i: nat)
    requires WorldInv(w) && Enabled(w.s, ev) && Running(w.s, r) && !By(ev, r) && i < |w.nodes|
    requires UpdateOk(w.s, w.nodes[i]) && UpdateOk(Step(w.s, ev), w.nodes[i])
    ensures SameReader(w.s, Step(w.s, ev), r)
    ensures var a := Pipeline(ev);
            CanRead(After(w, a), r, i) != CanRead(w, r, i) <==> Unsettled(w, r, i) && Decides(w, a, i)
  {
    StepKeepsReader(w.s, ev, r);
    if w.nodes[i].commit.Some? {
      StampIsNoStart(w.s, w.nodes[i], r);
    }
    if w.nodes[i].txn.Some? {
      OwnerMoves(w.s, ev, w.nodes[i].txn.value);
    }
  }

  /** How a step moves a transaction towards the end of a rollback. */
  lemma OwnerMoves(s: State, ev: Event, t: nat)
    requires Inv(s) && Enabled(s, ev) && t < |s.txns|
    ensures t < |Step(s, ev).txns| && TxnOk(s.txns[t], s.clock)
    ensures s.txns[t].commit.Some? ==>
              (Step(s, ev).txns[t].state.Rollbacked? != s.txns[t].state.Rollbacked? <==>
                 s.txns[t].state.Rollbacking? && ev == EvApply && s.prepared != [] && s.prepared[0].txn == t)
  {
    StepTxn(s, ev, t);
    assert TxnOk(s.txns[t], s.clock);
    if ev.EvPrepare? && s.received != [] {
      assert s.txns[s.received[0].txn].state.Active?;
    }
    if ev.EvApply? && s.prepared != [] {
      assert s.txns[s.prepared[0].txn].state == StateOf(s.prepared[0].request);
    }
  }

  // ----- whole runs -----

  /** The world goes on from w while only others than r act. */
  ghost predicate Continues(w: World, ws: seq<World>, acts: seq<Act>, r: nat) {
    && |ws| == |acts| + 1 && ws[0] == w
    && (forall k {:trigger acts[k]} :: 0 <= k < |acts| ==> Allowed(ws[k], acts[k]) && !ByReader(acts[k], r))
    && (forall k {:trigger acts[k]} :: 0 <= k < |acts| ==> ws[k + 1] == After(ws[k], acts[k]))
  }

  /** No answer for the reader is open. */
  ghost predicate Settled(w: World, r: nat) {
    forall i {:trigger w.nodes[i]} :: 0 <= i < |w.nodes| ==> !Unsettled(w, r, i)
  }

  /** Whatever others do, no answer changes. */
  ghost predicate Fixed(w: World, r: nat)
    requires WorldInv(w) && Running(w.s, r)
  {
    forall ws, acts, i {:trigger Continues(w, ws, acts, r), w.nodes[i]} :: Continues(w, ws, acts, r) && 0 <= i < |w.nodes| ==>
      SameAnswer(w, ws[|acts|], r, i)
  }

  ghost predicate SameAnswer(w: World, w': World, r: nat, i: nat)
    requires WorldInv(w) && Running(w.s, r) && i < |w.nodes|
  {
    WorldInv(w') && Running(w'.s, r) && i < |w'.nodes| && CanRead(w', r, i) == CanRead(w, r, i)
  }

  lemma SettledStays(w: World, a: Act, r: nat)
    requires WorldInv(w) && Allowed(w, a) && Running(w.s, r) && !ByReader(a, r) && Settled(w, r)
    ensures Settled(After(w, a), r)
  {
    var w' := After(w, a);
    forall i | 0 <= i < |w'.nodes| ensures !Unsettled(w', r, i) {
      if i < |w.nodes| && w.nodes[i].txn.Some? {
        assert UpdateOk(w.s, w.nodes[i]) && !Unsettled(w, r, i);
        if a.Pipeline? {
          OwnerStaysSettled(w, a.ev, r, i);
        }
      } else if a.Open? {
        assert TxnOk(w.s.txns[a.t], w.s.clock);
      }
    }
  }

  /** Who gets a timestamp now gets one above the reader's start. */
  lemma OwnerStaysSettled(w: World, ev: Event, r: nat, i: nat)
    requires WorldInv(w) && Enabled(w.s, ev) && Running(w.s, r) && !By(ev, r)
    requires i < |w.nodes| && w.nodes[i].txn.Some? && UpdateOk(w.s, w.nodes[i]) && !Unsettled(w, r, i)
    ensures !Unsettled(After(w, Pipeline(ev)), r, i)
  {
    var s, t := w.s, w.nodes[i].txn.value;
    StepKeepsReader(s, ev, r);
    OwnerSettles(s, ev, t);
    assert TxnOk(s.txns[r], s.clock);
  }

  /** A transaction gets its timestamp from the clock, and its way is then decided. */
  lemma OwnerSettles(s: State, ev: Event, t: nat)
    requires Inv(s) && Enabled(s, ev) && t < |s.txns|
    ensures t < |Step(s, ev).txns|
    ensures var txn, txn' := s.txns[t], Step(s, ev).txns[t];
            txn'.commit == Some(s.clock + 1) || (txn'.commit == txn.commit && (txn'.state == txn.state || txn'.state.Committed? || txn'.state.Rollbacked?))
  {
    StepQueues(s, ev);
    StepTxn(s, ev, t);
    if ev.EvApply? && s.prepared != [] {
      assert s.txns[s.prepared[0].txn].state == StateOf(s.prepared[0].request);
    }
  }

  lemma {:induction false} SettledRun(w: World, ws: seq<World>, acts: seq<Act>, r: nat, k: nat)
    requires WorldInv(w) && Running(w.s, r) && Settled(w, r) && Continues(w, ws, acts, r) && k <= |acts|
    ensures WorldInv(ws[k]) && Running(ws[k].s, r) && Settled(ws[k], r)
    ensures forall i :: 0 <= i < |w.nodes| ==> SameAnswer(w, ws[k], r, i)
  {
    if k > 0 {
      SettledRun(w, ws, acts, r, k - 1);
      var w1, a := ws[k - 1], acts[k - 1];
      assert Allowed(w1, a) && !ByReader(a, r) && ws[k] == After(w1, a);
      SettledNext(w, w1, a, r);
    }
  }

  lemma SettledNext(w: World, w1: World, a: Act, r: nat)
    requires WorldInv(w) && Running(w.s, r) && WorldInv(w1) && Running(w1.s, r) && Settled(w1, r)
    requires Allowed(w1, a) && !ByReader(a, r) && forall i :: 0 <= i < |w.nodes| ==> SameAnswer(w, w1, r, i)
    ensures WorldInv(After(w1, a)) && Running(After(w1, a).s, r) && Settled(After(w1, a), r)
    ensures forall i :: 0 <= i < |w.nodes| ==> SameAnswer(w, After(w1, a), r, i)
  {
    SettledStep(w1, a, r);
    forall i | 0 <= i < |w.nodes| ensures SameAnswer(w, After(w1, a), r, i) {
      AnswerStays(w, w1, After(w1, a), r, i);
    }
  }

  lemma AnswerStays(w: World, w1: World, w2: World, r: nat, i: nat)
    requires WorldInv(w) && Running(w.s, r) && i < |w.nodes| && SameAnswer(w, w1, r, i) && SameAnswer(w1, w2, r, i)
    ensures SameAnswer(w, w2, r, i)
  {
  }

  lemma SettledStep(w: World, a: Act, r: nat)
    requires WorldInv(w) && Allowed(w, a) && Running(w.s, r) && !ByReader(a, r) && Settled(w, r)
    ensures WorldInv(After(w, a)) && Running(After(w, a).s, r) && Settled(After(w, a), r)
    ensures forall i :: 0 <= i < |w.nodes| ==> SameAnswer(w, After(w, a), r, i)
  {
    ActKeeps(w, a);
    SettledStays(w, a, r);
    if a.Pipeline? {
      StepKeepsReader(w.s, a.ev, r);
    }
    forall i | 0 <= i < |w.nodes| ensures SameAnswer(w, After(w, a), r, i) {
      AnswerChangesIff(w, a, r, i);
    }
  }

  /** An open answer can still change, without the reader doing anything. */
  lemma OpenAnswerFalls(w: World, r: nat, i: nat, at: nat) returns (ws: seq<World>, acts: seq<Act>)
    requires WorldInv(w) && Running(w.s, r) && Unsettled(w, r, i)
    requires at < |w.s.prepared| && w.s.prepared[at].txn == w.nodes[i].txn.value
    ensures Continues(w, ws, acts, r) && !SameAnswer(w, ws[|acts|], r, i)
  {
    if w.nodes[i].commit.None? {
      AnswerFallsNow(w, Stamp(i), r, i);
      ws, acts := Prepended(w, Stamp(i), [After(w, Stamp(i))], [], r);
    } else {
      ws, acts := RollbackEnds(w, r, i, at);
    }
  }

  /** One transaction after the other is applied until it is the owner's turn. */
  lemma {:induction false} RollbackEnds(w: World, r: nat, i: nat, at: nat) returns (ws: seq<World>, acts: seq<Act>)
    requires WorldInv(w) && Running(w.s, r) && Unsettled(w, r, i) && w.nodes[i].commit.Some?
    requires at < |w.s.prepared| && w.s.prepared[at].txn == w.nodes[i].txn.value
    ensures Continues(w, ws, acts, r) && !SameAnswer(w, ws[|acts|], r, i)
    decreases at
  {
    var a := Pipeline(EvApply);
    var w1 := After(w, a);
    if at == 0 {
      AnswerFallsNow(w, a, r, i);
      ws, acts := Prepended(w, a, [w1], [], r);
    } else {
      StillOpen(w, r, i, at);
      ws, acts := RollbackEnds(w1, r, i, at - 1);
      AnswerFallsLater(w, w1, ws[|acts|], r, i);
      ws, acts := Prepended(w, a, ws, acts, r);
    }
  }

  lemma AnswerFallsLater(w: World, w1: World, w2: World, r: nat, i: nat)
    requires WorldInv(w) && Running(w.s, r) && i < |w.nodes| && SameAnswer(w, w1, r, i) && !SameAnswer(w1, w2, r, i)
    ensures !SameAnswer(w, w2, r, i)
  {
  }

  lemma AnswerFallsNow(w: World, a: Act, r: nat, i: nat)
    requires WorldInv(w) && Running(w.s, r) && Unsettled(w, r, i) && Allowed(w, a) && Decides(w, a, i) && !ByReader(a, r)
    ensures !SameAnswer(w, After(w, a), r, i)
  {
    AnswerChangesIff(w, a, r, i);
  }

  /** Applying somebody else brings the owner nearer to its turn and leaves it as it is. */
  lemma StillOpen(w: World, r: nat, i: nat, at: nat)
    requires WorldInv(w) && Running(w.s, r) && Unsettled(w, r, i) && w.nodes[i].commit.Some?
    requires 0 < at < |w.s.prepared| && w.s.prepared[at].txn == w.nodes[i].txn.value
    ensures Unsettled(After(w, Pipeline(EvApply)), r, i)
    ensures var s' := Apply(w.s); at - 1 < |s'.prepared| && s'.prepared[at - 1].txn == w.nodes[i].txn.value
    ensures SameAnswer(w, After(w, Pipeline(EvApply)), r, i)
  {
    AnswerChangesIff(w, Pipeline(EvApply), r, i);
    var s, t := w.s, w.nodes[i].txn.value;
    assert s.txns[s.prepared[0].txn].commit.value < s.txns[s.prepared[at].txn].commit.value;
    StepKeepsReader(s, EvApply, r);
    StepQueues(s, EvApply);
    StepTxn(s, EvApply, t);
  }

  lemma Prepended(w: World, a: Act, ws: seq<World>, acts: seq<Act>, r: nat) returns (ws': seq<World>, acts': seq<Act>)
    requires Allowed(w, a) && !ByReader(a, r) && Continues(After(w, a), ws, acts, r)
    ensures Continues(w, ws', acts', r) && ws'[|acts'|] == ws[|acts|]
  {
    ws', acts' := [w] + ws, [a] + acts;
    forall k | 0 <= k < |acts'| ensures Allowed(ws'[k], acts'[k]) && !ByReader(acts'[k], r) && ws'[k + 1] == After(ws'[k], acts'[k]) {
      if k > 0 {
        assert acts'[k] == acts[k - 1] && ws'[k] == ws[k - 1] && ws'[k + 1] == ws[k];
      }
    }
  }

  lemma OwnerWaits(w: World, r: nat, i: nat) returns (at: nat)
    requires WorldInv(w) && Unsettled(w, r, i)
    ensures at < |w.s.prepared| && w.s.prepared[at].txn == w.nodes[i].txn.value
  {
    assert InPrepared(w.s, w.nodes[i].txn.value);
    at :| 0 <= at < |w.s.prepared| && w.s.prepared[at].txn == w.nodes[i].txn.value;
  }

  /** What a running reader may read of the nodes there are stays the same, whatever others
      do, exactly if no answer is open: no transaction with a timestamp from before the
      reader's start has a node still to be stamped or to be taken back. */
  lemma AnswersFixedIff(w: World, r: nat)
    requires WorldInv(w) && Running(w.s, r)
    ensures Fixed(w, r) <==> Settled(w, r)
  {
    if Settled(w, r) {
      forall ws, acts, i | Continues(w, ws, acts, r) && 0 <= i < |w.nodes| ensures SameAnswer(w, ws[|acts|], r, i) {
        SettledRun(w, ws, acts, r, |acts|);
      }
    } else {
      var i :| 0 <= i < |w.nodes| && Unsettled(w, r, i);
      var at := OwnerWaits(w, r, i);
      var ws, acts := OpenAnswerFalls(w, r, i, at);
      assert Continues(w, ws, acts, r) && w.nodes[i] == w.nodes[i];
    }
  }

  /** With no transaction between prepare and apply every answer is fixed. */
  lemma QuietIsSettled(w: World, r: nat)
    requires WorldInv(w) && Running(w.s, r) && w.s.prepared == []
    ensures Settled(w, r)
  {
    forall i | 0 <= i < |w.nodes| ensures !Unsettled(w, r, i) {
      if Unsettled(w, r, i) {
        var at := OwnerWaits(w, r, i);
      }
    }
  }

  /** A reader that starts while the node of a transaction with a timestamp is not stamped
      has an open answer. */
  lemma LateStampIsOpen(w: World, i: nat)
    requires WorldInv(w) && Preparing(w, i) && w.nodes[i].commit.None?
    ensures Unsettled(After(w, Pipeline(EvStart)), |w.s.txns|, i)
  {
    assert TxnOk(w.s.txns[w.nodes[i].txn.value], w.s.clock);
  }

  // ----- the nodes as the acts have left them -----

  /** A chain from its beginning. */
  ghost predicate History(ws: seq<World>, acts: seq<Act>) {
    && |ws| == |acts| + 1 && ws[0].nodes == [] && Inv(ws[0].s)
    && (forall k {:trigger acts[k]} :: 0 <= k < |acts| ==> Allowed(ws[k], acts[k]))
    && (forall k {:trigger acts[k]} :: 0 <= k < |acts| ==> ws[k + 1] == After(ws[k], acts[k]))
  }

  /** The acts that made the nodes, in order. */
  function Makers(acts: seq<Act>, k: nat): seq<Act>
    requires k <= |acts|
  {
    if k == 0 then []
    else if acts[k - 1].Open? || acts[k - 1].Merge? then Makers(acts, k - 1) + [acts[k - 1]]
    else Makers(acts, k - 1)
  }

  /** A node belongs to the transaction that opened it until it is released, and has a stamp
      exactly if it was stamped; a merge node belongs to nobody and has the stamp of the node
      it starts from. */
  ghost predicate NodeTold(nodes: seq<UpdateNode>, acts: seq<Act>, k: nat, i: nat)
    requires k <= |acts|
  {
    && i < |nodes| == |Makers(acts, k)|
    && match Makers(acts, k)[i]
       case Open(t) =>
         && nodes[i].txn == (if Release(i) in acts[..k] then None else Some(t))
         && (nodes[i].commit.Some? <==> Stamp(i) in acts[..k])
       case Merge(j) =>
         nodes[i].txn.None? && nodes[i].commit.Some? && j < |nodes| && nodes[i].commit == nodes[j].commit && Stamp(i) !in acts[..k] && Release(i) !in acts[..k]
       case _ => false
  }

  ghost predicate NodesTold(nodes: seq<UpdateNode>, acts: seq<Act>, k: nat)
    requires k <= |acts|
  {
    && |nodes| == |Makers(acts, k)| && (forall i {:trigger NodeTold(nodes, acts, k, i)} :: 0 <= i < |nodes| ==> NodeTold(nodes, acts, k, i))
    && (forall i {:trigger Stamp(i)} {:trigger Release(i)} :: i >= |nodes| ==> Stamp(i) !in acts[..k] && Release(i) !in acts[..k])
  }

  lemma NodeToldNext(w: World, acts: seq<Act>, k: nat, i: nat)
    requires k < |acts| && Allowed(w, acts[k]) && NodesTold(w.nodes, acts, k) && i < |After(w, acts[k]).nodes|
    requires acts[k].Stamp? ==> w.s.txns[w.nodes[acts[k].i].txn.value].commit.Some?
    ensures NodeTold(After(w, acts[k]).nodes, acts, k + 1, i)
  {
    assert acts[..k + 1] == acts[..k] + [acts[k]];
    if i < |w.nodes| {
      assert NodeTold(w.nodes, acts, k, i);
    }
  }

  lemma NodesToldNext(w: World, acts: seq<Act>, k: nat)
    requires WorldInv(w) && k < |acts| && Allowed(w, acts[k]) && NodesTold(w.nodes, acts, k)
    ensures NodesTold(After(w, acts[k]).nodes, acts, k + 1)
  {
    var nodes, l := After(w, acts[k]).nodes, k + 1;
    assert acts[..l] == acts[..k] + [acts[k]];
    if acts[k].Stamp? {
      assert TxnOk(w.s.txns[w.nodes[acts[k].i].txn.value], w.s.clock);
    }
    forall i | 0 <= i < |nodes| ensures NodeTold(nodes, acts, l, i) {
      NodeToldNext(w, acts, k, i);
    }
  }

  lemma HistoryStep(ws: seq<World>, acts: seq<Act>, k: nat, a: Act)
    requires History(ws, acts) && k < |acts| && a == acts[k]
    ensures Allowed(ws[k], a) && ws[k + 1] == After(ws[k], a)
  {
  }

  lemma StartTold(w: World, acts: seq<Act>)
    requires Inv(w.s) && w.nodes == []
    ensures WorldInv(w) && NodesTold(w.nodes, acts, 0)
  {
  }

  lemma ToldNext(w: World, acts: seq<Act>, k: nat)
    requires WorldInv(w) && k < |acts| && Allowed(w, acts[k]) && NodesTold(w.nodes, acts, k)
    ensures WorldInv(After(w, acts[k])) && NodesTold(After(w, acts[k]).nodes, acts, k + 1)
  {
    ActKeeps(w, acts[k]);
    NodesToldNext(w, acts, k);
  }

  /** In every history of a chain the owner and the stamp of every node are what the acts say. */
  lemma {:induction false} NodesAreHistory(ws: seq<World>, acts: seq<Act>, k: nat)
    requires History(ws, acts) && k <= |acts|
    ensures WorldInv(ws[k]) && NodesTold(ws[k].nodes, acts, k)
  {
    if k == 0 {
      StartTold(ws[0], acts);
    } else {
      NodesAreHistory(ws, acts, k - 1);
      HistoryStep(ws, acts, k - 1, acts[k - 1]);
      ToldNext(ws[k - 1], acts, k - 1);
    }
  }
}
