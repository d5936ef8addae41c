/** What holds of the catalog in every run: versions of a name do not overlap, stamps are
    set once, snapshots do not move, and nothing commits under a dropped table. */
module MvccRuns {
  import opened Wire
  import opened Options
  import opened Mvcc
  import opened MvccInvariant
  import opened MvccWrites
  import opened MvccPipeline
  import opened MvccCreators

  /** What holds at every point of every run. */
  ghost predicate Inv(s: State) {
    Core(s) && CreatorsOk(s)
  }

  lemma InitInv(db: nat)
    requires db < UINT64
    ensures Inv(Init(db))
  {
    InitCore(db);
  }

  /** Every step of every transaction keeps the catalog and the queues in order. */
  lemma StepCore(s: State, ev: Event)
    requires Core(s) && Enabled(s, ev)
    ensures Core(Step(s, ev))
  {
    match ev
    case EvStart => StartKeeps(s);
    case EvCreate(t, name) => CreateKeeps(s, t, name);
    case EvDrop(t, name) => DropKeeps(s, t, name);
    case EvChild(t, table, segment) => ChildKeeps(s, t, table, segment);
    case EvSubmit(t, request) => SubmitKeeps(s, t, request);
    case EvPrepare => PrepareKeeps(s);
    case EvApply => ApplyKeeps(s);
  }

  lemma StepCreators(s: State, ev: Event)
    requires Shape(s) && TimeOk(s) && QueueOk(s) && CreatorsOk(s) && Enabled(s, ev)
    ensures CreatorsOk(Step(s, ev))
  {
    match ev
    case EvStart => StartCreators(s);
    case EvCreate(t, name) =>
      assert TxnOk(s.txns[t], s.clock);
      if MayCreate(s, t, name).Done? {
        CreateCreators(s, t, name);
      }
    case EvDrop(t, name) => DropCreators(s, t, name);
    case EvChild(t, table, segment) => ChildCreators(s, t, table, segment);
    case EvSubmit(t, request) => SubmitCreators(s, t, request);
    case EvPrepare =>
      if s.received != [] {
        assert NextUp(s, s.received[0].txn);
        CommitCreators(s, s.received[0].txn);
        RollbackCreators(s, s.received[0].txn);
      }
    case EvApply =>
      if s.prepared != [] {
        ApplyCreators(s);
      }
  }

  lemma StepKeeps(s: State, ev: Event)
    requires Inv(s) && Enabled(s, ev)
    ensures Inv(Step(s, ev))
  {
    StepCore(s, ev);
    StepCreators(s, ev);
  }

  /** A run: any interleaving of any number of transactions, one step after the other. */
  ghost predicate Run(states: seq<State>, evs: seq<Event>) {
    && |states| == |evs| + 1
    && (forall i {:trigger evs[i]} :: 0 <= i < |evs| ==> Shape(states[i]) && Enabled(states[i], evs[i]))
    && (forall i {:trigger evs[i]} :: 0 <= i < |evs| ==> states[i + 1] == Step(states[i], evs[i]))
  }

  /** The invariant holds at every point of every run of a new catalog. */
  lemma {:induction false} RunKeeps(states: seq<State>, evs: seq<Event>, k: nat)
    requires Run(states, evs) && k < |states| && Inv(states[0])
    ensures Inv(states[k])
  {
    if k > 0 {
      RunKeeps(states, evs, k - 1);
      StepKeeps(states[k - 1], evs[k - 1]);
    }
  }

  /** A run goes on for one more event. */
  lemma Extend(states: seq<State>, evs: seq<Event>, ev: Event)
    requires Run(states, evs) && Shape(states[|evs|]) && Enabled(states[|evs|], ev)
    ensures Run(states + [Step(states[|evs|], ev)], evs + [ev])
  {
    var states', evs' := states + [Step(states[|evs|], ev)], evs + [ev];
    forall i | 0 <= i < |evs'| ensures Shape(states'[i]) && Enabled(states'[i], evs'[i]) && states'[i + 1] == Step(states'[i], evs'[i]) {
      if i < |evs| {
        assert evs'[i] == evs[i] && states'[i] == states[i] && states'[i + 1] == states[i + 1];
      }
    }
  }

  // ----- lifetimes -----

  /** The entry exists for a reader at ts. */
  ghost predicate Alive(e: Entry, ts: nat) {
    e.createAt != 0 && e.createAt <= ts && (e.deleteAt == 0 || ts < e.deleteAt)
  }

  /** In every run the versions of a name have disjoint lifetimes, in list order. */
  lemma DisjointLifetimes(states: seq<State>, evs: seq<Event>, k: nat, name: string, i: nat, j: nat, ts: nat)
    requires Run(states, evs) && k < |states| && Inv(states[0])
    requires Shape(states[k]) && name in states[k].names && i < j < |states[k].names[name]|
    ensures var newer, older := states[k].entries[states[k].names[name][i]], states[k].entries[states[k].names[name][j]];
            && !(Alive(newer, ts) && Alive(older, ts))
            && (newer.createAt != 0 ==> 0 < older.createAt <= older.deleteAt <= newer.createAt)
  {
    RunKeeps(states, evs, k);
    var s := states[k];
    var vs := s.names[name];
    assert VersionsOk(s, name, vs);
    assert Precedes(s.txns, s.entries[vs[j]], s.entries[vs[i]]);
    assert EntryOk(s, vs[i]) && EntryOk(s, vs[j]);
  }

  /** The only ways a step changes an entry. */
  ghost predicate Effect(s: State, ev: Event, e: Entry, e': Entry)
    requires Shape(s)
  {
    e' == e ||
    match ev
    case EvDrop(t, _) => e' == Dropped(e, t) && e.deleteAt == 0 && (e.txn.None? || e.txn == Some(t))
    case EvPrepare =>
      && s.received != [] && e.txn == Some(s.received[0].txn)
      && ((e' == e.PrepareCommit(s.clock + 1) && e.deleteAt == 0) || e' == e.PrepareRollback())
    case EvApply => s.prepared != [] && e.txn == Some(s.prepared[0].txn) && e' == e.ApplyCommit()
    case _ => false
  }

  lemma StepEffect(s: State, ev: Event, id: nat)
    requires Inv(s) && Enabled(s, ev) && id < |s.entries|
    ensures id < |Step(s, ev).entries| && Effect(s, ev, s.entries[id], Step(s, ev).entries[id])
  {
    assert EntryOk(s, id);
    match ev {
      case EvDrop(t, name) => DropEffect(s, t, name, id);
      case EvPrepare => PrepareEffect(s, id);
      case EvApply =>
        if s.prepared != [] {
          ApplyShape(s);
          ApplyEntry(s, id);
        }
      case _ =>
    }
  }

  lemma DropEffect(s: State, t: nat, name: string, id: nat)
    requires Shape(s) && t < |s.txns| && id < |s.entries| && EntryOk(s, id)
    ensures id < |DropTable(s, t, name).entries| && Effect(s, EvDrop(t, name), s.entries[id], DropTable(s, t, name).entries[id])
  {
    LookupInRange(s, t, name);
  }

  lemma PrepareEffect(s: State, id: nat)
    requires Shape(s) && TimeOk(s) && QueueOk(s) && TablesOk(s) && id < |s.entries| && EntryOk(s, id)
    ensures id < |Prepare(s).entries| && Effect(s, EvPrepare, s.entries[id], Prepare(s).entries[id])
  {
    if s.received != [] {
      var t := s.received[0].txn;
      assert NextUp(s, t);
      CommitEffect(s, t, id);
      RollbackEffect(s, t, id);
    }
  }

  lemma CommitEffect(s: State, t: nat, id: nat)
    requires Shape(s) && TablesOk(s) && NextUp(s, t) && id < |s.entries| && EntryOk(s, id)
    ensures Effect(s, EvPrepare, s.entries[id], PrepareCommit(s, t).entries[id])
  {
    MarkIsRecord(s, t, id);
    assert PrepareCommit(s, t).entries[id] == StampEntry(s.entries[id], id, s.txns[t].tables, s.clock + 1);
  }

  lemma RollbackEffect(s: State, t: nat, id: nat)
    requires Shape(s) && TablesOk(s) && NextUp(s, t) && id < |s.entries| && EntryOk(s, id)
    ensures Effect(s, EvPrepare, s.entries[id], PrepareRollback(s, t).entries[id])
  {
    MarkIsRecord(s, t, id);
    assert PrepareRollback(s, t).entries[id] == UnwindEntry(s.entries[id], id, s.txns[t].tables);
  }

  /** What a step does to a transaction: only its own operations and the queues change it. */
  lemma StepTxn(s: State, ev: Event, t: nat)
    requires Inv(s) && Enabled(s, ev) && t < |s.txns|
    ensures t < |Step(s, ev).txns|
    ensures var txn, txn' := s.txns[t], Step(s, ev).txns[t];
            && txn'.start == txn.start
            && (txn'.submitted != txn.submitted ==> ev.EvSubmit? && ev.t == t)
            && (txn'.state != txn.state ==>
                  || (ev.EvPrepare? && s.received != [] && s.received[0].txn == t)
                  || (ev.EvApply? && s.prepared != [] && s.prepared[0].txn == t))
            && (ev.EvPrepare? && s.received != [] && s.received[0].txn == t ==> !txn'.state.Active?)
  {
    match ev {
      case EvDrop(_, name) => LookupInRange(s, ev.t, name);
      case EvPrepare => PrepareTxn(s, t);
      case EvApply =>
        if s.prepared != [] {
          ApplyShape(s);
        }
      case _ =>
    }
  }

  lemma PrepareTxn(s: State, t: nat)
    requires Shape(s) && TimeOk(s) && QueueOk(s) && t < |s.txns|
    ensures t < |Prepare(s).txns| && Prepare(s).txns[t].start == s.txns[t].start
    ensures Prepare(s).txns[t].submitted == s.txns[t].submitted
    ensures if s.received != [] && s.received[0].txn == t then !Prepare(s).txns[t].state.Active?
            else Prepare(s).txns[t] == s.txns[t]
  {
    if s.received != [] {
      assert NextUp(s, s.received[0].txn);
      CommitShape(s, s.received[0].txn);
      RollbackShape(s, s.received[0].txn);
    }
  }

  /** A step keeps every stamp that is set. */
  lemma StepKeepsStamps(s: State, ev: Event, id: nat)
    requires Inv(s) && Enabled(s, ev) && id < |s.entries|
    ensures id < |Step(s, ev).entries|
    ensures var e, e' := s.entries[id], Step(s, ev).entries[id];
            && e'.name == e.name
            && (e.createAt != 0 ==> e'.createAt == e.createAt)
            && (e.deleteAt != 0 ==> e'.deleteAt == e.deleteAt)
  {
    StepEffect(s, ev, id);
  }

  /** An entry has at most one uncommitted writer, and nobody takes it over: the mark
      stays until the writer itself is prepared. */
  lemma WriterStays(s: State, ev: Event, id: nat)
    requires Inv(s) && Enabled(s, ev) && id < |s.entries| && Shape(Step(s, ev))
    requires s.entries[id].txn.Some? && s.txns[s.entries[id].txn.value].state.Active?
    ensures id < |Step(s, ev).entries| && s.entries[id].txn.value < |Step(s, ev).txns|
    ensures Step(s, ev).entries[id].txn == s.entries[id].txn || !Step(s, ev).txns[s.entries[id].txn.value].state.Active?
  {
    StepEffect(s, ev, id);
    StepTxn(s, ev, s.entries[id].txn.value);
    if ev.EvApply? && s.prepared != [] {
      assert s.txns[s.prepared[0].txn].state == StateOf(s.prepared[0].request);
    }
  }

  /** Along every run an entry is created at most once and deleted at most once. */
  lemma {:induction false} StampsSetOnce(states: seq<State>, evs: seq<Event>, k: nat, l: nat, id: nat)
    requires Run(states, evs) && Inv(states[0]) && k <= l < |states| && id < |states[k].entries|
    ensures id < |states[l].entries|
    ensures states[k].entries[id].createAt != 0 ==> states[l].entries[id].createAt == states[k].entries[id].createAt
    ensures states[k].entries[id].deleteAt != 0 ==> states[l].entries[id].deleteAt == states[k].entries[id].deleteAt
    decreases l - k
  {
    if k < l {
      StampsSetOnce(states, evs, k, l - 1, id);
      NextKeepsStamps(states, evs, l - 1, id);
    }
  }

  lemma NextKeepsStamps(states: seq<State>, evs: seq<Event>, k: nat, id: nat)
    requires Run(states, evs) && Inv(states[0]) && k + 1 < |states| && id < |states[k].entries|
    ensures id < |states[k + 1].entries|
    ensures var e, e' := states[k].entries[id], states[k + 1].entries[id];
            && e'.name == e.name
            && (e.createAt != 0 ==> e'.createAt == e.createAt)
            && (e.deleteAt != 0 ==> e'.deleteAt == e.deleteAt)
  {
    RunKeeps(states, evs, k);
    StepKeepsStamps(states[k], evs[k], id);
  }

  // ----- nothing commits under a dropped table -----

  /** In every run a segment or block stamped at c belongs to a table that was not deleted
      at a timestamp below c. */
  lemma NoCommitUnderDroppedTable(states: seq<State>, evs: seq<Event>, k: nat, c: nat)
    requires Run(states, evs) && Inv(states[0]) && k < |states| && c < |states[k].children| && Shape(states[k])
    requires states[k].children[c].createAt != 0
    ensures !states[k].entries[states[k].children[c].table].DeleteBefore(states[k].children[c].createAt)
  {
    RunKeeps(states, evs, k);
    assert ChildOk(states[k], states[k].children[c]);
  }

  // ----- timestamps and outcomes -----

  /** All timestamps of a run are different, a commit follows its start, prepared
      transactions wait in the order of their timestamps, and the transaction prepared next
      can always take the timestamp it is given. */
  lemma TimestampsOrdered(states: seq<State>, evs: seq<Event>, k: nat, t: nat, u: nat)
    requires Run(states, evs) && Inv(states[0]) && k < |states| && t < |states[k].txns| && u < |states[k].txns|
    ensures var s := states[k];
            && (t != u ==> s.txns[t].start != s.txns[u].start)
            && (t != u && s.txns[t].commit.Some? ==> s.txns[t].commit != s.txns[u].commit)
            && s.txns[u].commit != Some(s.txns[t].start)
            && (s.txns[t].commit.Some? ==> s.txns[t].start < s.txns[t].commit.value)
    ensures var s := states[k];
            forall i :: 0 <= i < |s.received| && s.received[i].txn == t ==>
              s.txns[t].CanCommit(s.clock + 1) && s.txns[t].CanRollback(s.clock + 1)
    ensures var s := states[k];
            Shape(s) && forall i, j :: 0 <= i < j < |s.prepared| && s.prepared[i].txn == t && s.prepared[j].txn == u ==>
              s.txns[t].commit.Some? && s.txns[u].commit.Some? && s.txns[t].commit.value < s.txns[u].commit.value
  {
    RunKeeps(states, evs, k);
    assert TxnOk(states[k].txns[t], states[k].clock);
    if t > u {
      assert states[k].txns[u].start < states[k].txns[t].start;
      assert states[k].txns[u].commit.Some? ==> states[k].txns[u].commit != states[k].txns[t].commit;
    }
  }

  /** When both queues have drained, every transaction that asked for its commit or
      rollback is final, and every other one is active. */
  lemma DrainedMeansFinal(states: seq<State>, evs: seq<Event>, k: nat, t: nat)
    requires Run(states, evs) && Inv(states[0]) && k < |states| && t < |states[k].txns|
    requires states[k].received == [] && states[k].prepared == []
    ensures var txn := states[k].txns[t];
            if txn.submitted then txn.state.Committed? || txn.state.Rollbacked? else txn.state.Active?
  {
    RunKeeps(states, evs, k);
    var s := states[k];
    assert TxnOk(s.txns[t], s.clock);
    assert !InReceived(s, t) && !InPrepared(s, t);
  }

  /** A final state is final. */
  lemma FinalStays(s: State, ev: Event, t: nat)
    requires Inv(s) && Enabled(s, ev) && t < |s.txns| && (s.txns[t].state.Committed? || s.txns[t].state.Rollbacked?)
    ensures t < |Step(s, ev).txns| && Step(s, ev).txns[t].state == s.txns[t].state
  {
    StepTxn(s, ev, t);
    if ev.EvApply? && s.prepared != [] {
      assert s.txns[s.prepared[0].txn].state == StateOf(s.prepared[0].request);
    }
  }
}
