/** The two queues over whole runs: commit timestamps follow the order of submission, and the
    queues drain. */
module MvccOrder {
  import opened Options
  import opened Mvcc
  import opened MvccInvariant
  import opened MvccPipeline
  import opened MvccRuns

  /** What a step does to the first queue and to the timestamps. */
  ghost predicate Queues(s: State, ev: Event, s': State) {
    && |s.txns| <= |s'.txns|
    && s'.received == (if ev.EvSubmit? then s.received + [OpTxn(ev.t, ev.request)]
                       else if ev.EvPrepare? && s.received != [] then s.received[1..] else s.received)
    && (forall t :: 0 <= t < |s.txns| ==>
          s'.txns[t].commit == if ev.EvPrepare? && s.received != [] && s.received[0].txn == t then Some(s.clock + 1) else s.txns[t].commit)
  }

  lemma StepQueues(s: State, ev: Event)
    requires Shape(s) && TimeOk(s) && QueueOk(s) && Enabled(s, ev)
    ensures Queues(s, ev, Step(s, ev))
  {
    match ev {
      case EvDrop(t, name) => LookupInRange(s, t, name);
      case EvPrepare => PrepareQueues(s);
      case EvApply => ApplyQueues(s);
      case _ =>
    }
  }

  lemma ApplyQueues(s: State)
    requires Shape(s) && TimeOk(s) && QueueOk(s)
    ensures Queues(s, EvApply, Apply(s))
  {
    if s.prepared != [] {
      ApplyShape(s);
    }
  }

  lemma PrepareQueues(s: State)
    requires Shape(s) && TimeOk(s) && QueueOk(s)
    ensures Queues(s, EvPrepare, Prepare(s))
  {
    if s.received != [] {
      var t := s.received[0].txn;
      assert NextUp(s, t);
      CommitShape(s, t);
      RollbackShape(s, t);
    }
  }

  /** The request of t is before that of u. */
  ghost predicate Before(queue: seq<OpTxn>, t: nat, u: nat) {
    exists i, j :: 0 <= i < j < |queue| && queue[i].txn == t && queue[j].txn == u
  }

  /** t is prepared before u: it waits in front of u, or has its timestamp when u has none
      yet, or has the smaller one. */
  ghost predicate Ahead(s: State, t: nat, u: nat) {
    t < |s.txns| && u < |s.txns| &&
    if s.txns[t].commit.None? then Before(s.received, t, u)
    else s.txns[u].commit.None? || s.txns[t].commit.value < s.txns[u].commit.value
  }

  lemma BeforeLater(queue: seq<OpTxn>, op: OpTxn, t: nat, u: nat)
    requires Before(queue, t, u)
    ensures Before(queue + [op], t, u)
  {
    var i, j :| 0 <= i < j < |queue| && queue[i].txn == t && queue[j].txn == u;
    assert (queue + [op])[i].txn == t && (queue + [op])[j].txn == u;
  }

  lemma BeforeTail(queue: seq<OpTxn>, t: nat, u: nat)
    requires Before(queue, t, u) && queue[0].txn != t
    ensures Before(queue[1..], t, u)
  {
    var i, j :| 0 <= i < j < |queue| && queue[i].txn == t && queue[j].txn == u;
    assert queue[1..][i - 1].txn == t && queue[1..][j - 1].txn == u;
  }

  lemma StepAhead(s: State, ev: Event, s': State, t: nat, u: nat)
    requires Shape(s) && TimeOk(s) && QueueOk(s) && Queues(s, ev, s') && Ahead(s, t, u)
    ensures Ahead(s', t, u)
  {
    assert TxnOk(s.txns[t], s.clock) && TxnOk(s.txns[u], s.clock);
    if s.txns[t].commit.None? {
      var i, j :| 0 <= i < j < |s.received| && s.received[i].txn == t && s.received[j].txn == u;
      assert s.txns[s.received[j].txn].state.Active? && s.received[0].txn != s.received[j].txn;
      if ev.EvSubmit? {
        BeforeLater(s.received, OpTxn(ev.t, ev.request), t, u);
      } else if ev.EvPrepare? && s.received[0].txn != t {
        BeforeTail(s.received, t, u);
      }
    }
  }

  lemma {:induction false} AheadAlongRun(states: seq<State>, evs: seq<Event>, k: nat, l: nat, t: nat, u: nat)
    requires Run(states, evs) && Inv(states[0]) && k <= l < |states| && Ahead(states[k], t, u)
    ensures Ahead(states[l], t, u)
    decreases l - k
  {
    if k < l {
      AheadAlongRun(states, evs, k, l - 1, t, u);
      NextAhead(states, evs, l - 1, t, u);
    }
  }

  lemma NextAhead(states: seq<State>, evs: seq<Event>, k: nat, t: nat, u: nat)
    requires Run(states, evs) && Inv(states[0]) && k + 1 < |states| && Ahead(states[k], t, u)
    ensures Ahead(states[k + 1], t, u)
  {
    RunKeeps(states, evs, k);
    StepQueues(states[k], evs[k]);
    StepAhead(states[k], evs[k], states[k + 1], t, u);
  }

  /** Commit timestamps follow the order of submission: if t asked before u at some point of a
      run, then at every later point at which u has its timestamp, t has a smaller one. */
  lemma SubmissionOrder(states: seq<State>, evs: seq<Event>, k: nat, l: nat, t: nat, u: nat)
    requires Run(states, evs) && Inv(states[0]) && k <= l < |states| && Before(states[k].received, t, u)
    ensures t < |states[l].txns| && u < |states[l].txns|
    ensures states[l].txns[u].commit.Some? ==>
              states[l].txns[t].commit.Some? && states[l].txns[t].commit.value < states[l].txns[u].commit.value
  {
    RunKeeps(states, evs, k);
    WaitingAhead(states[k], t, u);
    AheadAlongRun(states, evs, k, l, t, u);
    RunKeeps(states, evs, l);
    AheadSmaller(states[l], t, u);
  }

  lemma WaitingAhead(s: State, t: nat, u: nat)
    requires Shape(s) && TimeOk(s) && QueueOk(s) && Before(s.received, t, u)
    ensures Ahead(s, t, u)
  {
    var i, j :| 0 <= i < j < |s.received| && s.received[i].txn == t && s.received[j].txn == u;
    assert s.txns[s.received[i].txn].state.Active? && TxnOk(s.txns[t], s.clock);
  }

  lemma AheadSmaller(s: State, t: nat, u: nat)
    requires Shape(s) && TimeOk(s) && QueueOk(s) && Ahead(s, t, u)
    ensures s.txns[u].commit.Some? ==> s.txns[t].commit.Some? && s.txns[t].commit.value < s.txns[u].commit.value
  {
    if s.txns[t].commit.None? {
      var i, j :| 0 <= i < j < |s.received| && s.received[i].txn == t && s.received[j].txn == u;
      assert s.txns[s.received[j].txn].state.Active? && TxnOk(s.txns[u], s.clock);
    }
  }

  // ----- the clock -----

  /** How many timestamps were given out in the first k events: one to each start and one to
      each request prepared. */
  ghost function Ticks(states: seq<State>, evs: seq<Event>, k: nat): nat
    requires k <= |evs| <= |states|
  {
    if k == 0 then 0
    else Ticks(states, evs, k - 1) + if evs[k - 1].EvStart? || (evs[k - 1].EvPrepare? && states[k - 1].received != []) then 1 else 0
  }

  lemma StepTicks(s: State, ev: Event)
    requires Shape(s) && Enabled(s, ev)
    ensures Step(s, ev).clock == s.clock + if ev.EvStart? || (ev.EvPrepare? && s.received != []) then 1 else 0
    ensures if ev.EvStart? then Step(s, ev).txns == s.txns + [Txn(s.clock + 1, None, Active, false, map[], {})]
            else |Step(s, ev).txns| == |s.txns|
  {
    if ev.EvDrop? {
      LookupInRange(s, ev.t, ev.name);
    }
  }

  /** In every run the clock counts the timestamps given out, without a gap, and each start
      gets the next one. */
  lemma {:induction false} ClockCounts(states: seq<State>, evs: seq<Event>, k: nat)
    requires Run(states, evs) && k <= |evs|
    ensures states[k].clock == states[0].clock + Ticks(states, evs, k)
    ensures k > 0 && evs[k - 1].EvStart? ==>
              states[k].txns == states[k - 1].txns + [Txn(states[k].clock, None, Active, false, map[], {})]
  {
    if k > 0 {
      ClockCounts(states, evs, k - 1);
      RunStep(states, evs, k - 1, evs[k - 1]);
      StepTicks(states[k - 1], evs[k - 1]);
    }
  }

  // ----- the queues drain -----

  lemma FirstPrepared(s: State)
    requires Inv(s) && s.received != []
    ensures Inv(Prepare(s)) && |Prepare(s).received| == |s.received| - 1 && |Prepare(s).prepared| == |s.prepared| + 1
  {
    StepKeeps(s, EvPrepare);
  }

  lemma FirstApplied(s: State)
    requires Inv(s) && s.prepared != []
    ensures Inv(Apply(s)) && |Apply(s).prepared| == |s.prepared| - 1 && Apply(s).received == s.received
  {
    StepKeeps(s, EvApply);
  }

  /** As many prepares as requests wait empty the first queue. */
  lemma {:induction false} DrainReceived(s: State) returns (states: seq<State>, evs: seq<Event>)
    requires Inv(s)
    ensures Run(states, evs) && states[0] == s && |evs| == |s.received| && forall i :: 0 <= i < |evs| ==> evs[i] == EvPrepare
    ensures states[|evs|].received == [] && |states[|evs|].prepared| == |s.prepared| + |s.received|
    decreases |s.received|
  {
    states, evs := [s], [];
    if s.received != [] {
      FirstPrepared(s);
      var states1, evs1 := DrainReceived(Prepare(s));
      states, evs := Prefixed(s, EvPrepare, states1, evs1);
    }
  }

  /** As many applies as transactions are prepared empty the second one. */
  lemma {:induction false} DrainPrepared(s: State) returns (states: seq<State>, evs: seq<Event>)
    requires Inv(s)
    ensures Run(states, evs) && states[0] == s && |evs| == |s.prepared| && forall i :: 0 <= i < |evs| ==> evs[i] == EvApply
    ensures states[|evs|].received == s.received && states[|evs|].prepared == []
    decreases |s.prepared|
  {
    states, evs := [s], [];
    if s.prepared != [] {
      FirstApplied(s);
      var states1, evs1 := DrainPrepared(Apply(s));
      states, evs := Prefixed(s, EvApply, states1, evs1);
    }
  }

  lemma Prefixed(s: State, ev: Event, states: seq<State>, evs: seq<Event>) returns (states': seq<State>, evs': seq<Event>)
    requires Run(states, evs) && Shape(s) && Enabled(s, ev) && states[0] == Step(s, ev)
    ensures states' == [s] + states && evs' == [ev] + evs && Run(states', evs') && states'[|evs'|] == states[|evs|]
  {
    states', evs' := [s] + states, [ev] + evs;
    forall i | 0 <= i < |evs'| ensures Shape(states'[i]) && Enabled(states'[i], evs'[i]) && states'[i + 1] == Step(states'[i], evs'[i]) {
      if i > 0 {
        assert evs'[i] == evs[i - 1] && states'[i] == states[i - 1] && states'[i + 1] == states[i];
        RunStep(states, evs, i - 1, evs[i - 1]);
      }
    }
  }

  lemma RunStep(states: seq<State>, evs: seq<Event>, i: nat, ev: Event)
    requires Run(states, evs) && i < |evs| && ev == evs[i]
    ensures Shape(states[i]) && Enabled(states[i], ev) && states[i + 1] == Step(states[i], ev)
  {
  }

  /** From every reachable state the queues empty themselves without any transaction acting,
      and then every submitted transaction is final. */
  lemma QueuesDrain(s: State) returns (states: seq<State>, evs: seq<Event>, states': seq<State>, evs': seq<Event>)
    requires Inv(s)
    ensures Run(states, evs) && states[0] == s && |evs| == |s.received| && forall i :: 0 <= i < |evs| ==> evs[i] == EvPrepare
    ensures Run(states', evs') && states'[0] == states[|evs|] && |evs'| == |s.prepared| + |s.received|
    ensures forall i :: 0 <= i < |evs'| ==> evs'[i] == EvApply
    ensures states'[|evs'|].received == [] && states'[|evs'|].prepared == []
    ensures forall t :: 0 <= t < |states'[|evs'|].txns| && states'[|evs'|].txns[t].submitted ==>
              states'[|evs'|].txns[t].state.Committed? || states'[|evs'|].txns[t].state.Rollbacked?
  {
    states, evs := DrainReceived(s);
    RunKeeps(states, evs, |evs|);
    states', evs' := DrainPrepared(states[|evs|]);
    forall t | 0 <= t < |states'[|evs'|].txns| && states'[|evs'|].txns[t].submitted
      ensures states'[|evs'|].txns[t].state.Committed? || states'[|evs'|].txns[t].state.Rollbacked?
    {
      DrainedMeansFinal(states', evs', |evs'|, t);
    }
  }
}
