/** Snapshot reads: the visibility test is the read view of the transaction's start, it
    does not move while others act, and the name walk agrees with it except on a create
    that is stamped but not yet applied. */
module MvccSnapshot {
  import opened Options
  import opened Wire
  import opened Keys
  import opened Mvcc
  import opened MvccInvariant
  import opened MvccWrites
  import opened MvccPipeline
  import opened MvccCreators
  import opened MvccRuns

  /** The read view: alive at the reader's start, or the reader's own undropped write. */
  ghost predicate InView(s: State, r: nat, id: nat)
    requires r < |s.txns| && id < |s.entries|
  {
    var e := s.entries[id];
    if e.txn == Some(r) then e.op.Create? else Alive(e, s.txns[r].start)
  }

  lemma EntryInView(s: State, r: nat, id: nat)
    requires Shape(s) && Running(s, r) && Listed(s, id) && EntryOk(s, id)
    requires TxnOk(s.txns[r], s.clock) && (s.entries[id].txn.Some? ==> TxnOk(s.txns[s.entries[id].txn.value], s.clock))
    requires s.entries[id].createAt != s.txns[r].start && s.entries[id].deleteAt != s.txns[r].start
    ensures TxnCanRead(s, r, id) <==> InView(s, r, id)
  {
  }

  /** The code's visibility test is the read view, for every entry not rolled back. */
  lemma CanReadIsView(s: State, r: nat, id: nat)
    requires Inv(s) && Running(s, r) && Listed(s, id)
    ensures TxnCanRead(s, r, id) <==> InView(s, r, id)
  {
    assert s.entries[id].createAt != s.txns[r].start && s.entries[id].deleteAt != s.txns[r].start;
    EntryInView(s, r, id);
  }

  /** An entry whose create was rolled back is outside every read view, yet the test on
      the entry alone lets every reader through. */
  lemma RolledBackEntryLeaks(s: State, r: nat, id: nat, t: nat)
    requires Inv(s) && Running(s, r) && id < |s.entries| && Created(s, t, id) && Undone(s.txns[t])
    ensures TxnCanRead(s, r, id) && !InView(s, r, id)
  {
    assert EntryOk(s, id) && !Listed(s, id);
  }

  /** The visibility test is the read view exactly for the entries whose creator was not
      rolled back. */
  lemma CanReadIsViewIff(s: State, r: nat, id: nat, t: nat)
    requires Inv(s) && Running(s, r) && id < |s.entries| && Created(s, t, id)
    ensures (TxnCanRead(s, r, id) <==> InView(s, r, id)) <==> !Undone(s.txns[t])
  {
    if Undone(s.txns[t]) {
      RolledBackEntryLeaks(s, r, id, t);
    } else {
      CanReadIsView(s, r, id);
    }
  }

  /** Somebody else's drop with a timestamp from before the reader's start. */
  ghost predicate DroppedBefore(s: State, r: nat, id: nat)
    requires Shape(s)
  {
    && r < |s.txns| && id < |s.entries|
    && var e := s.entries[id];
       && e.txn.Some? && e.txn.value != r && s.txns[e.txn.value].commit.Some?
       && e.CreateBefore(s.txns[r].start) && e.DeleteBefore(s.txns[r].start) && !e.CreateAndDropInSameTxn()
  }

  /** It hides the entry from the reader and ends the name walk, unless its transaction was
      rolled back: then it counts for nothing. */
  lemma RolledBackDropIgnored(s: State, r: nat, id: nat)
    requires Shape(s) && DroppedBefore(s, r, id)
    ensures var undone := s.txns[s.entries[id].txn.value].state.Rollbacked?;
            (TxnCanRead(s, r, id) <==> undone) && Examine(s, r, id) == if undone then Found else Stop
  {
  }

  /** The same for the check. */
  lemma RolledBackDropPasses(s: State, id: nat, ts: nat)
    requires Shape(s) && id < |s.entries| && id < UINT64 && s.entries[id].DeleteBefore(ts)
    requires s.entries[id].txn.Some? && s.txns[s.entries[id].txn.value].commit.Some?
    ensures Collides(s, EncodeTable(s.db, id), ts) <==> !s.txns[s.entries[id].txn.value].state.Rollbacked?
  {
    DecodeEncoded(s.db, id, 0, 0);
  }

  /** In no run does a rolled-back drop carry a timestamp. */
  lemma NoRolledBackDrop(s: State, r: nat, id: nat)
    requires Inv(s) && DroppedBefore(s, r, id)
    ensures !s.txns[s.entries[id].txn.value].state.Rollbacked?
  {
    assert EntryOk(s, id);
  }

  // ----- stability -----

  /** The event is an operation of transaction r itself. */
  predicate By(ev: Event, r: nat) {
    match ev
    case EvCreate(t, _) => t == r
    case EvDrop(t, _) => t == r
    case EvChild(t, _, _) => t == r
    case EvSubmit(t, _) => t == r
    case _ => false
  }

  /** The reader is still running and has not moved. */
  ghost predicate SameReader(s: State, s': State, r: nat) {
    Running(s, r) && Running(s', r) && s'.txns[r].start == s.txns[r].start
  }

  lemma StepKeepsReader(s: State, ev: Event, r: nat)
    requires Inv(s) && Enabled(s, ev) && Running(s, r) && !By(ev, r)
    ensures SameReader(s, Step(s, ev), r)
  {
    StepTxn(s, ev, r);
  }

  lemma EffectKeepsView(s: State, ev: Event, r: nat, e: Entry, e': Entry)
    requires Shape(s) && TimeOk(s) && QueueOk(s) && Running(s, r) && !By(ev, r) && Effect(s, ev, e, e')
    ensures e'.txn == Some(r) <==> e.txn == Some(r)
    ensures e.txn == Some(r) ==> e'.op == e.op
    ensures e.txn != Some(r) ==> (Alive(e', s.txns[r].start) <==> Alive(e, s.txns[r].start))
  {
    assert TxnOk(s.txns[r], s.clock);
    if ev.EvApply? && s.prepared != [] {
      assert s.txns[s.prepared[0].txn].state == StateOf(s.prepared[0].request);
    }
  }

  lemma StepKeepsView(s: State, ev: Event, r: nat, id: nat)
    requires Inv(s) && Enabled(s, ev) && Running(s, r) && !By(ev, r) && id < |s.entries|
    ensures SameReader(s, Step(s, ev), r) && id < |Step(s, ev).entries|
    ensures InView(Step(s, ev), r, id) <==> InView(s, r, id)
  {
    StepKeepsReader(s, ev, r);
    StepEffect(s, ev, id);
    EffectKeepsView(s, ev, r, s.entries[id], Step(s, ev).entries[id]);
  }

  /** New entries are outside the read view of everyone but their creator. */
  lemma StepAddsUnseen(s: State, ev: Event, r: nat, id: nat)
    requires Shape(s) && Enabled(s, ev) && Running(s, r) && !By(ev, r)
    requires |s.entries| <= id < |Step(s, ev).entries| && r < |Step(s, ev).txns|
    ensures !InView(Step(s, ev), r, id)
  {
    StepAdds(s, ev);
  }

  /** Only a create adds an entry, and it adds one that is not stamped. */
  lemma StepAdds(s: State, ev: Event)
    requires Shape(s) && Enabled(s, ev)
    ensures |Step(s, ev).entries| != |s.entries| ==>
              ev.EvCreate? && Step(s, ev).entries == s.entries + [Entry(ev.name, Some(ev.t), Create, None, 0, 0)]
  {
    if ev.EvDrop? {
      LookupInRange(s, ev.t, ev.name);
    }
  }

  lemma StepNames(s: State, ev: Event)
    requires Shape(s) && Enabled(s, ev) && !ev.EvCreate? && !ev.EvPrepare?
    ensures Step(s, ev).names == s.names
  {
    if ev.EvDrop? {
      LookupInRange(s, ev.t, ev.name);
    }
  }

  lemma StepLists(s: State, ev: Event, id: nat)
    requires Inv(s) && Enabled(s, ev) && id < |s.entries|
    ensures id < |Step(s, ev).entries|
    ensures Listed(Step(s, ev), id) ==> Listed(s, id)
    ensures Listed(s, id) && s.entries[id].createAt != 0 ==> Listed(Step(s, ev), id)
  {
    StepKeepsStamps(s, ev, id);
    if ev.EvCreate? {
      if MayCreate(s, ev.t, ev.name).Done? {
        CreateLists(s, ev.t, ev.name, id);
      }
    } else if ev.EvPrepare? {
      assert EntryOk(s, id);
      PrepareLists(s, id);
    } else {
      StepNames(s, ev);
    }
  }

  lemma PrepareLists(s: State, id: nat)
    requires Shape(s) && QueueOk(s) && TablesOk(s) && id < |s.entries| && EntryOk(s, id)
    ensures Listed(Prepare(s), id) ==> Listed(s, id)
    ensures Listed(s, id) && s.entries[id].createAt != 0 ==> Listed(Prepare(s), id)
  {
    if s.received != [] {
      var t := s.received[0].txn;
      assert NextUp(s, t);
      CommitLists(s, t, id);
      RollbackLists(s, t, id);
      MarkIsRecord(s, t, id);
    }
  }

  /** Between two points of a run at which only others acted. */
  ghost predicate OthersOnly(evs: seq<Event>, k: nat, l: nat, r: nat) {
    forall i :: k <= i < l && i < |evs| ==> !By(evs[i], r)
  }

  lemma {:induction false} ViewAcrossRun(states: seq<State>, evs: seq<Event>, k: nat, l: nat, r: nat, id: nat)
    requires Run(states, evs) && Inv(states[0]) && k <= l < |states| && OthersOnly(evs, k, l, r)
    requires Running(states[k], r) && id < |states[k].entries|
    ensures SameReader(states[k], states[l], r) && id < |states[l].entries|
    ensures InView(states[l], r, id) <==> InView(states[k], r, id)
    ensures Listed(states[l], id) ==> Listed(states[k], id)
    ensures Listed(states[k], id) && states[k].entries[id].createAt != 0 ==> Listed(states[l], id)
    decreases l - k
  {
    if k < l {
      ViewAcrossRun(states, evs, k, l - 1, r, id);
      StampsSetOnce(states, evs, k, l - 1, id);
      NextView(states, evs, l - 1, r, id);
    }
  }

  lemma NextView(states: seq<State>, evs: seq<Event>, k: nat, r: nat, id: nat)
    requires Run(states, evs) && Inv(states[0]) && k < |evs| && !By(evs[k], r) && Running(states[k], r) && id < |states[k].entries|
    ensures SameReader(states[k], states[k + 1], r) && id < |states[k + 1].entries|
    ensures InView(states[k + 1], r, id) <==> InView(states[k], r, id)
    ensures Listed(states[k + 1], id) ==> Listed(states[k], id)
    ensures Listed(states[k], id) && states[k].entries[id].createAt != 0 ==> Listed(states[k + 1], id)
  {
    RunKeeps(states, evs, k);
    StepKeepsView(states[k], evs[k], r, id);
    StepLists(states[k], evs[k], id);
  }

  /** Snapshot stability: in every run, however many transactions start, write, commit or
      roll back meanwhile, what a running reader may read does not change unless the
      reader itself acts. */
  lemma SnapshotStable(states: seq<State>, evs: seq<Event>, k: nat, l: nat, r: nat, id: nat)
    requires Run(states, evs) && Inv(states[0]) && k <= l < |states| && OthersOnly(evs, k, l, r)
    requires Running(states[k], r) && Shape(states[l]) && Listed(states[l], id) && id < |states[k].entries| && Shape(states[k])
    ensures r < |states[l].txns| && (TxnCanRead(states[l], r, id) <==> TxnCanRead(states[k], r, id))
  {
    ViewAcrossRun(states, evs, k, l, r, id);
    RunKeeps(states, evs, k);
    RunKeeps(states, evs, l);
    CanReadIsView(states[k], r, id);
    CanReadIsView(states[l], r, id);
  }
}
