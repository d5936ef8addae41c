/** Every table has one creating transaction, and is on its name's list unless that
    transaction was rolled back. */
module MvccCreators {
  import opened Options
  import opened Mvcc
  import opened MvccInvariant
  import opened MvccPipeline

  /** The transaction created the table. */
  ghost predicate Created(s: State, t: int, id: int) {
    0 <= t < |s.txns| && id >= 0 && id in s.txns[t].tables && s.txns[t].tables[id].created
  }

  ghost predicate Undone(txn: Txn) {
    txn.state.Rollbacking? || txn.state.Rollbacked?
  }

  ghost predicate HasCreator(s: State, id: int) {
    exists t :: Created(s, t, id)
  }

  ghost predicate CreatorsOk(s: State) {
    && (forall id :: 0 <= id < |s.entries| ==> HasCreator(s, id))
    && (forall t, u, id :: Created(s, t, id) && Created(s, u, id) ==> t == u)
    && (forall t, id :: Created(s, t, id) ==> (Listed(s, id) <==> !Undone(s.txns[t])))
  }

  /** Nothing was created, rolled back or taken off a list. */
  ghost predicate SameCreators(s: State, s': State) {
    && |s'.entries| == |s.entries|
    && (forall t, id :: Created(s', t, id) <==> Created(s, t, id))
    && (forall t, id :: Created(s, t, id) ==> t < |s'.txns| && (Undone(s'.txns[t]) <==> Undone(s.txns[t])))
    && (forall id: nat :: Listed(s', id) <==> Listed(s, id))
  }

  lemma CreatorsFrame(s: State, s': State)
    requires CreatorsOk(s) && SameCreators(s, s')
    ensures CreatorsOk(s')
  {
    forall id | 0 <= id < |s'.entries| ensures HasCreator(s', id) {
      assert HasCreator(s, id);
      var t :| Created(s, t, id);
      assert Created(s', t, id);
    }
    forall t, u, id | Created(s', t, id) && Created(s', u, id) ensures t == u {
      assert Created(s, t, id) && Created(s, u, id);
    }
  }

  lemma StartCreators(s: State)
    requires CreatorsOk(s)
    ensures CreatorsOk(StartTxn(s))
  {
    var s' := StartTxn(s);
    forall t, id ensures Created(s', t, id) <==> Created(s, t, id) {
    }
    CreatorsFrame(s, s');
  }

  lemma SubmitCreators(s: State, t: nat, request: Request)
    requires CreatorsOk(s) && t < |s.txns|
    ensures CreatorsOk(Submit(s, t, request))
  {
    CreatorsFrame(s, Submit(s, t, request));
  }

  lemma ChildCreators(s: State, t: nat, table: nat, segment: Option<nat>)
    requires Shape(s) && CreatorsOk(s) && t < |s.txns|
    ensures CreatorsOk(CreateChild(s, t, table, segment))
  {
    CreatorsFrame(s, CreateChild(s, t, table, segment));
  }

  lemma DropCreators(s: State, t: nat, name: string)
    requires Shape(s) && CreatorsOk(s) && t < |s.txns|
    ensures CreatorsOk(DropTable(s, t, name))
  {
    LookupInRange(s, t, name);
    CreatorsFrame(s, DropTable(s, t, name));
  }

  lemma CreateCreators(s: State, t: nat, name: string)
    requires Shape(s) && CreatorsOk(s) && t < |s.txns| && s.txns[t].state.Active? && MayCreate(s, t, name).Done?
    ensures CreatorsOk(CreateTable(s, t, name))
  {
    var s', n := CreateTable(s, t, name), |s.entries|;
    forall u, id ensures Created(s', u, id) <==> Created(s, u, id) || (u == t && id == n) {
    }
    forall id: nat | id < n ensures Listed(s', id) <==> Listed(s, id) {
      assert s'.entries[id] == s.entries[id];
    }
    assert s'.names[name][0] == n;
    forall id | 0 <= id < |s'.entries| ensures HasCreator(s', id) {
      if id == n {
        assert Created(s', t, n);
      } else {
        assert HasCreator(s, id);
        var u :| Created(s, u, id);
        assert Created(s', u, id);
      }
    }
    forall u, id | Created(s, u, id) ensures id < n {
      assert id in s.txns[u].tables;
    }
  }

  lemma CommitCreators(s: State, t: nat)
    requires Shape(s) && CreatorsOk(s) && s.received != [] && t < |s.txns| && s.txns[t].state.Active?
    ensures CreatorsOk(PrepareCommit(s, t))
  {
    var s' := PrepareCommit(s, t);
    forall id: nat ensures Listed(s', id) <==> Listed(s, id) {
      CommitLists(s, t, id);
    }
    CreatorsFrame(s, s');
  }

  lemma CommitLists(s: State, t: nat, id: nat)
    requires Shape(s) && s.received != [] && t < |s.txns|
    ensures Listed(PrepareCommit(s, t), id) <==> Listed(s, id)
  {
    if id < |s.entries| {
      assert PrepareCommit(s, t).entries[id] == StampEntry(s.entries[id], id, s.txns[t].tables, s.clock + 1);
    }
  }

  lemma RollbackLists(s: State, t: nat, id: nat)
    requires Shape(s) && s.received != [] && t < |s.txns|
    ensures Listed(PrepareRollback(s, t), id) <==> Listed(s, id) && !Created(s, t, id)
  {
    var s' := PrepareRollback(s, t);
    if id < |s.entries| {
      assert s'.entries[id] == UnwindEntry(s.entries[id], id, s.txns[t].tables);
      if s.entries[id].name in s.names {
        UnlistMembers(s.names[s.entries[id].name], s.txns[t].tables);
      }
    }
  }

  lemma RollbackCreators(s: State, t: nat)
    requires Shape(s) && TimeOk(s) && CreatorsOk(s) && NextUp(s, t)
    ensures CreatorsOk(PrepareRollback(s, t))
  {
    var s' := PrepareRollback(s, t);
    RollbackShape(s, t);
    forall u, id ensures Created(s', u, id) <==> Created(s, u, id) {
    }
    forall id | 0 <= id < |s'.entries| ensures HasCreator(s', id) {
      assert HasCreator(s, id);
      var u :| Created(s, u, id);
      assert Created(s', u, id);
    }
    forall u, id | Created(s', u, id) ensures Listed(s', id) <==> !Undone(s'.txns[u]) {
      RollbackLists(s, t, id);
    }
  }

  lemma ApplyCreators(s: State)
    requires Shape(s) && TimeOk(s) && QueueOk(s) && CreatorsOk(s) && s.prepared != []
    ensures CreatorsOk(Apply(s))
  {
    var s', t := Apply(s), s.prepared[0].txn;
    ApplyShape(s);
    assert s.txns[t].state == StateOf(s.prepared[0].request);
    forall id: nat ensures Listed(s', id) <==> Listed(s, id) {
      if id < |s.entries| && s.prepared[0].request.Commit? {
        assert s'.entries[id] == SettleEntry(s.entries[id], id, s.txns[t].tables);
      }
    }
    CreatorsFrame(s, s');
  }
}
