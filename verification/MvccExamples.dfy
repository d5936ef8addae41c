/** Runs of the catalog that reach what the code gets wrong. */
module MvccExamples {
  import opened Options
  import opened Keys
  import opened Mvcc
  import opened MvccInvariant
  import opened MvccCreators
  import opened MvccRuns
  import opened MvccSnapshot

  // ----- a stamped create is missed -----

  /** A run in which transaction 0 creates a table and is prepared, and transaction 1
      starts before it is applied. */
  ghost function MissRun(k: nat): State
    requires k <= 5
  {
    var symbols := {EncodeDB(1)};
    var create := map[0 := TxnTable(true, false)];
    if k == 0 then Init(1)
    else if k == 1 then State(1, 1, [Txn(1, None, Active, false, map[], {})], [], map[], [], [], [])
    else if k == 2 then State(1, 1, [Txn(1, None, Active, false, create, symbols)], [Entry("t", Some(0), Create, None, 0, 0)],
                              map["t" := [0]], [], [], [])
    else if k == 3 then State(1, 1, [Txn(1, None, Active, true, create, symbols)], [Entry("t", Some(0), Create, None, 0, 0)],
                              map["t" := [0]], [], [OpTxn(0, Commit)], [])
    else if k == 4 then State(1, 2, [Txn(1, Some(2), Committing, true, create, symbols)], [Entry("t", Some(0), Create, None, 2, 0)],
                              map["t" := [0]], [], [], [OpTxn(0, Commit)])
    else State(1, 3, [Txn(1, Some(2), Committing, true, create, symbols), Txn(3, None, Active, false, map[], {})],
               [Entry("t", Some(0), Create, None, 2, 0)], map["t" := [0]], [], [], [OpTxn(0, Commit)])
  }

  ghost function MissEvent(k: nat): Event {
    if k == 1 then EvCreate(0, "t") else if k == 2 then EvSubmit(0, Commit) else if k == 3 then EvPrepare else EvStart
  }

  lemma MissChecked()
    ensures Shape(MissRun(3)) && !CheckFails(MissRun(3), 0, 2)
  {
    DecodeEncoded(1, 0, 0, 0);
  }

  lemma MissPrepare()
    ensures Shape(MissRun(3)) && Prepare(MissRun(3)) == MissRun(4)
  {
    var s := MissRun(3);
    MissChecked();
    assert StampEntries(s.entries, s.txns[0].tables, 2) == MissRun(4).entries;
    assert s.received[1..] == [];
  }

  lemma MissCreate()
    ensures Shape(MissRun(1)) && CreateTable(MissRun(1), 0, "t") == MissRun(2)
  {
    var s, s' := MissRun(1), CreateTable(MissRun(1), 0, "t");
    assert s'.txns[0].symbols == {EncodeDB(1)};
    assert s'.txns[0].tables == map[0 := TxnTable(true, false)];
    assert s'.names["t"] == [0];
    assert s'.names == MissRun(2).names;
    assert s'.txns == MissRun(2).txns;
  }

  lemma MissStep(k: nat)
    requires k < 5
    ensures Shape(MissRun(k)) && Enabled(MissRun(k), MissEvent(k)) && Step(MissRun(k), MissEvent(k)) == MissRun(k + 1)
  {
    if k == 1 {
      MissCreate();
    } else if k == 3 {
      MissPrepare();
    } else {
      MissRest(k);
    }
  }

  lemma MissRest(k: nat)
    requires k == 0 || k == 2 || k == 4
    ensures Shape(MissRun(k)) && Enabled(MissRun(k), MissEvent(k)) && Step(MissRun(k), MissEvent(k)) == MissRun(k + 1)
  {
  }

  lemma {:induction false} MissPrefix(k: nat) returns (states: seq<State>, evs: seq<Event>)
    requires k <= 5
    ensures Run(states, evs) && states[0] == Init(1) && |evs| == k && states[k] == MissRun(k)
  {
    states, evs := [MissRun(0)], [];
    if k > 0 {
      states, evs := MissPrefix(k - 1);
      MissStep(k - 1);
      Extend(states, evs, MissEvent(k - 1));
      states, evs := states + [MissRun(k)], evs + [MissEvent(k - 1)];
    }
  }

  /** The miss is real: a table stamped before the reader started is not found, although
      the reader may read it. */
  lemma LookupMissesStampedCreate() returns (states: seq<State>, evs: seq<Event>)
    ensures Run(states, evs) && states[0] == Init(1) && |evs| == 5
    ensures var s := states[5];
            Shape(s) && Running(s, 1) && 0 < |s.entries| && Lookup(s, 1, "t").None? && TxnCanRead(s, 1, 0)
  {
    states, evs := MissPrefix(5);
    MissEnd();
  }

  lemma MissEnd()
    ensures var s := MissRun(5);
            Shape(s) && Running(s, 1) && Lookup(s, 1, "t").None? && TxnCanRead(s, 1, 0)
  {
    var s := MissRun(5);
    assert s.names["t"] == [0];
    assert Examine(s, 1, 0).Stop?;
  }

  // ----- a rolled-back create stays in the way -----

  /** In every catalog: a transaction creates a table under a fresh name, asks for its
      rollback and is prepared. The name then has no version, but is taken. */
  lemma UndoneCreate(s: State, t: nat, name: string, s1: State, s2: State)
    requires Shape(s) && Running(s, t) && TxnOk(s.txns[t], s.clock) && name !in s.names && s.received == []
    requires s1 == CreateTable(s, t, name) && s2 == Submit(s1, t, Rollback) && Shape(s2)
    ensures Taken(Prepare(s2), t, name, |s.entries|)
    ensures Prepare(s2).prepared == s.prepared + [OpTxn(t, Rollback)]
  {
    var id, s3 := |s.entries|, Prepare(s2);
    assert s2.received == [OpTxn(t, Rollback)] && s2.names[name] == [id];
    assert s2.txns[t].tables[id] == TxnTable(true, false);
    assert Unlist([id], s2.txns[t].tables) == [] by {
      assert [id][1..] == [];
    }
    assert s3.names[name] == Unlist(s2.names[name], s2.txns[t].tables);
  }

  /** The name has no version left, and its one table was made by a transaction that was
      rolled back. */
  ghost predicate Taken(s: State, t: nat, name: string, id: nat) {
    name in s.names && s.names[name] == [] && id < |s.entries| && Created(s, t, id) && Undone(s.txns[t])
  }

  /** Whoever comes then: creating the name panics, and the visibility test accepts the table
      that never was. */
  lemma TakenHarms(s: State, t: nat, name: string, id: nat, r: nat)
    requires Inv(s) && Taken(s, t, name, id) && Running(s, r)
    ensures MayCreate(s, r, name).Panic? && TxnCanRead(s, r, id) && !InView(s, r, id)
  {
    RolledBackEntryLeaks(s, r, id, t);
  }

  /** A run from the empty catalog: start, create, roll back, start. */
  ghost function UndoneRun(k: nat, name: string): State
    requires k <= 6
  {
    var symbols := {EncodeDB(1)};
    var create := map[0 := TxnTable(true, false)];
    if k == 0 then Init(1)
    else if k == 1 then State(1, 1, [Txn(1, None, Active, false, map[], {})], [], map[], [], [], [])
    else if k == 2 then State(1, 1, [Txn(1, None, Active, false, create, symbols)], [Entry(name, Some(0), Create, None, 0, 0)],
                              map[name := [0]], [], [], [])
    else if k == 3 then State(1, 1, [Txn(1, None, Active, true, create, symbols)], [Entry(name, Some(0), Create, None, 0, 0)],
                              map[name := [0]], [], [OpTxn(0, Rollback)], [])
    else if k == 4 then State(1, 2, [Txn(1, Some(2), Rollbacking, true, create, symbols)], [Entry(name, None, Create, None, 0, 0)],
                              map[name := []], [], [], [OpTxn(0, Rollback)])
    else if k == 5 then State(1, 2, [Txn(1, Some(2), Rollbacked, true, create, symbols)], [Entry(name, None, Create, None, 0, 0)],
                              map[name := []], [], [], [])
    else State(1, 3, [Txn(1, Some(2), Rollbacked, true, create, symbols), Txn(3, None, Active, false, map[], {})],
               [Entry(name, None, Create, None, 0, 0)], map[name := []], [], [], [])
  }

  ghost function UndoneEvent(k: nat, name: string): Event {
    if k == 1 then EvCreate(0, name) else if k == 2 then EvSubmit(0, Rollback) else if k == 3 then EvPrepare
    else if k == 4 then EvApply else EvStart
  }

  lemma UndoneCreated(name: string)
    ensures Shape(UndoneRun(1, name)) && CreateTable(UndoneRun(1, name), 0, name) == UndoneRun(2, name)
  {
    var s, s' := UndoneRun(1, name), CreateTable(UndoneRun(1, name), 0, name);
    assert s'.txns[0].symbols == {EncodeDB(1)};
    assert s'.txns[0].tables == map[0 := TxnTable(true, false)];
    assert s'.names[name] == [0];
    assert s'.names == UndoneRun(2, name).names;
    assert s'.txns == UndoneRun(2, name).txns;
  }

  lemma UndonePrepared(name: string)
    ensures Shape(UndoneRun(3, name)) && Prepare(UndoneRun(3, name)) == UndoneRun(4, name)
  {
    var s, s' := UndoneRun(3, name), UndoneRun(4, name);
    var tables := s.txns[0].tables;
    assert UnwindEntries(s.entries, tables) == s'.entries;
    assert s.received[1..] == [];
    assert Unlist([0], tables) == [] by {
      assert [0][1..] == [];
    }
    assert (map n | n in s.names :: Unlist(s.names[n], tables)) == s'.names;
  }

  lemma UndoneStep(k: nat, name: string)
    requires k < 6
    ensures var s, ev := UndoneRun(k, name), UndoneEvent(k, name);
            Shape(s) && Enabled(s, ev) && Step(s, ev) == UndoneRun(k + 1, name)
  {
    if k == 1 {
      UndoneCreated(name);
    } else if k == 3 {
      UndonePrepared(name);
    } else if k == 4 {
      UndoneApplied(name);
    } else {
      UndoneRest(k, name);
    }
  }

  lemma UndoneRest(k: nat, name: string)
    requires k == 0 || k == 2 || k == 5
    ensures var s, ev := UndoneRun(k, name), UndoneEvent(k, name);
            Shape(s) && Enabled(s, ev) && Step(s, ev) == UndoneRun(k + 1, name)
  {
  }

  lemma UndoneApplied(name: string)
    ensures Shape(UndoneRun(4, name)) && Apply(UndoneRun(4, name)) == UndoneRun(5, name)
  {
    assert UndoneRun(4, name).prepared[1..] == [];
  }

  lemma {:induction false} UndonePrefix(k: nat, name: string) returns (states: seq<State>, evs: seq<Event>)
    requires k <= 6
    ensures Run(states, evs) && states[0] == Init(1) && |evs| == k && states[k] == UndoneRun(k, name)
  {
    states, evs := [UndoneRun(0, name)], [];
    if k > 0 {
      states, evs := UndonePrefix(k - 1, name);
      UndoneStep(k - 1, name);
      Extend(states, evs, UndoneEvent(k - 1, name));
      states, evs := states + [UndoneRun(k, name)], evs + [UndoneEvent(k - 1, name)];
    }
  }

  /** After it the next create of the name panics, and the rolled-back table passes the
      visibility test. */
  lemma UndoneCreateHarms(name: string) returns (states: seq<State>, evs: seq<Event>)
    ensures Run(states, evs) && states[0] == Init(1) && |evs| == 6
    ensures var s := states[6];
            && Shape(s) && Running(s, 1) && 0 < |s.entries|
            && MayCreate(s, 1, name).Panic? && TxnCanRead(s, 1, 0) && !InView(s, 1, 0)
  {
    states, evs := UndonePrefix(6, name);
    UndoneEnd(name);
  }

  lemma UndoneEnd(name: string)
    ensures var s := UndoneRun(6, name);
            && Shape(s) && Running(s, 1) && 0 < |s.entries|
            && MayCreate(s, 1, name).Panic? && TxnCanRead(s, 1, 0) && !InView(s, 1, 0)
  {
  }
}
