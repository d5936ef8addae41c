/** The serial queues keep the invariant: preparing stamps or unwinds what a transaction
    wrote, applying makes it final. */
module MvccPipeline {
  import opened Keys
  import opened Wire
  import opened Options
  import opened Mvcc
  import opened MvccInvariant

  /** The transaction whose request is prepared next. */
  ghost predicate NextUp(s: State, t: nat)
    requires Shape(s)
  {
    s.received != [] && s.received[0].txn == t && s.txns[t].state.Active?
  }

  /** A live transaction's mark and its own record of the table agree. */
  lemma MarkIsRecord(s: State, t: nat, id: nat)
    requires Shape(s) && TablesOk(s) && t < |s.txns| && id < |s.entries| && EntryOk(s, id) && Live(s.txns[t])
    ensures Wrote(s.txns[t].tables, id) <==> s.entries[id].txn == Some(t)
  {
  }

  /** All transactions but t, and all that is recorded of t, stay; t gets a timestamp. */
  ghost predicate Moves(s: State, s': State, t: nat) {
    && |s'.txns| == |s.txns| && t < |s.txns| && s'.db == s.db
    && (forall u :: 0 <= u < |s.txns| && u != t ==> s'.txns[u] == s.txns[u])
    && s'.txns[t].start == s.txns[t].start && s'.txns[t].tables == s.txns[t].tables
    && s'.txns[t].symbols == s.txns[t].symbols && s'.txns[t].submitted == s.txns[t].submitted
  }

  lemma MovedTime(s: State, s': State, t: nat)
    requires TimeOk(s) && Moves(s, s', t) && s'.clock == s.clock + 1
    requires s.txns[t].submitted && s'.txns[t].commit == Some(s'.clock) && !s'.txns[t].state.Active?
    ensures TimeOk(s')
  {
    forall u | 0 <= u < |s'.txns| ensures TxnOk(s'.txns[u], s'.clock) {
      assert TxnOk(s.txns[u], s.clock);
    }
    forall u, v | 0 <= u < v < |s'.txns| && s'.txns[u].commit.Some? ensures s'.txns[u].commit != s'.txns[v].commit {
      assert TxnOk(s.txns[u], s.clock) && TxnOk(s.txns[v], s.clock);
      assert s.txns[u].commit.Some? ==> s.txns[u].commit != s.txns[v].commit;
    }
    forall u, v | 0 <= u < |s'.txns| && 0 <= v < |s'.txns| ensures s'.txns[v].commit != Some(s'.txns[u].start) {
      assert TxnOk(s.txns[u], s.clock) && s.txns[v].commit != Some(s.txns[u].start);
    }
  }

  lemma MovedQueue(s: State, s': State, t: nat, request: Request)
    requires Shape(s) && Shape(s') && QueueOk(s) && TimeOk(s) && Moves(s, s', t) && NextUp(s, t)
    requires s'.txns[t].commit == Some(s.clock + 1) && s'.txns[t].state == StateOf(request)
    requires s'.received == s.received[1..] && s'.prepared == s.prepared + [OpTxn(t, request)]
    ensures QueueOk(s')
  {
    MovedOrder(s, s', t, request);
    forall u | 0 <= u < |s'.txns| && s'.txns[u].submitted && s'.txns[u].state.Active? ensures InReceived(s', u) {
      assert InReceived(s, u);
      var i :| 0 <= i < |s.received| && s.received[i].txn == u;
      assert s'.received[i - 1].txn == u;
    }
    forall u | 0 <= u < |s'.txns| && (s'.txns[u].state.Committing? || s'.txns[u].state.Rollbacking?) ensures InPrepared(s', u) {
      if u == t {
        assert s'.prepared[|s.prepared|].txn == t;
      } else {
        assert InPrepared(s, u);
        var i :| 0 <= i < |s.prepared| && s.prepared[i].txn == u;
        assert s'.prepared[i].txn == u;
      }
    }
  }

  lemma MovedOrder(s: State, s': State, t: nat, request: Request)
    requires Shape(s) && Shape(s') && QueueOk(s) && TimeOk(s) && Moves(s, s', t) && NextUp(s, t)
    requires s'.txns[t].commit == Some(s.clock + 1) && s'.txns[t].state == StateOf(request)
    requires s'.received == s.received[1..] && s'.prepared == s.prepared + [OpTxn(t, request)]
    ensures forall i :: 0 <= i < |s'.received| ==>
              s'.txns[s'.received[i].txn].state.Active? && s'.txns[s'.received[i].txn].submitted
    ensures forall i, j :: 0 <= i < j < |s'.received| ==> s'.received[i].txn != s'.received[j].txn
    ensures forall i :: 0 <= i < |s'.prepared| ==>
              s'.txns[s'.prepared[i].txn].commit.Some? && s'.txns[s'.prepared[i].txn].state == StateOf(s'.prepared[i].request)
    ensures forall i, j :: 0 <= i < j < |s'.prepared| ==>
              s'.txns[s'.prepared[i].txn].commit.value < s'.txns[s'.prepared[j].txn].commit.value
  {
    forall i | 0 <= i < |s'.received|
      ensures s'.txns[s'.received[i].txn].state.Active? && s'.txns[s'.received[i].txn].submitted
    {
      assert s'.received[i] == s.received[i + 1];
      assert s.received[0].txn != s.received[i + 1].txn;
    }
    forall i | 0 <= i < |s.prepared| ensures s.prepared[i].txn != t && s.txns[s.prepared[i].txn].commit.value <= s.clock {
      assert TxnOk(s.txns[s.prepared[i].txn], s.clock);
    }
  }

  lemma MovedStamps(s: State, s': State, t: nat)
    requires StampsOk(s) && TimeOk(s) && Moves(s, s', t) && |s'.entries| == |s.entries| && s'.clock == s.clock + 1
    requires forall id :: 0 <= id < |s.entries| ==>
               && (s'.entries[id].createAt == s.entries[id].createAt || s'.entries[id].createAt == s'.clock)
               && (s'.entries[id].deleteAt == s.entries[id].deleteAt || s'.entries[id].deleteAt == s'.clock)
    ensures StampsOk(s')
  {
    forall id, u | 0 <= id < |s'.entries| && 0 <= u < |s'.txns|
      ensures s'.entries[id].createAt != s'.txns[u].start && s'.entries[id].deleteAt != s'.txns[u].start
    {
      assert TxnOk(s.txns[u], s.clock) && s'.txns[u].start == s.txns[u].start;
      assert s.entries[id].createAt != s.txns[u].start && s.entries[id].deleteAt != s.txns[u].start;
    }
  }

  // ----- preparing a commit -----

  lemma CommitShape(s: State, t: nat)
    requires Shape(s) && TimeOk(s) && NextUp(s, t)
    ensures Shape(PrepareCommit(s, t)) && Moves(s, PrepareCommit(s, t), t)
    ensures PrepareCommit(s, t).txns[t].state.Committing? && PrepareCommit(s, t).txns[t].commit == Some(s.clock + 1)
  {
    var s' := PrepareCommit(s, t);
    assert TxnOk(s.txns[t], s.clock);
    forall u, id | 0 <= u < |s'.txns| && id in s'.txns[u].tables ensures id < |s'.entries| {
      assert id in s.txns[u].tables;
    }
    forall i | 0 <= i < |s'.prepared| ensures s'.prepared[i].txn < |s'.txns| {
      assert i < |s.prepared| ==> s'.prepared[i] == s.prepared[i];
    }
  }

  /** The stamp changes exactly the entries the transaction is on. */
  ghost predicate Stamps(s: State, s': State, t: nat, id: nat)
    requires id < |s.entries| && id < |s'.entries|
  {
    s'.entries[id] == if s.entries[id].txn == Some(t) then s.entries[id].PrepareCommit(s.clock + 1) else s.entries[id]
  }

  /** The unwinding, likewise. */
  ghost predicate Unwinds(s: State, s': State, t: nat, id: nat)
    requires id < |s.entries| && id < |s'.entries|
  {
    s'.entries[id] == if s.entries[id].txn == Some(t) then s.entries[id].PrepareRollback() else s.entries[id]
  }


  lemma CommitEntry(s: State, t: nat, id: nat)
    requires Shape(s) && TimeOk(s) && TablesOk(s) && NextUp(s, t) && id < |s.entries| && EntryOk(s, id)
    requires Shape(PrepareCommit(s, t)) && Moves(s, PrepareCommit(s, t), t)
    requires PrepareCommit(s, t).txns[t].state.Committing? && PrepareCommit(s, t).txns[t].commit == Some(s.clock + 1)
    ensures EntryOk(PrepareCommit(s, t), id)
    ensures Stamps(s, PrepareCommit(s, t), t, id)
  {
    var s' := PrepareCommit(s, t);
    MarkIsRecord(s, t, id);
    assert s'.entries[id] == StampEntry(s.entries[id], id, s.txns[t].tables, s.clock + 1);
    StampedOk(s, s', t, id);
  }

  lemma StampedOk(s: State, s': State, t: nat, id: nat)
    requires Shape(s) && Shape(s') && Moves(s, s', t) && s'.names == s.names && s'.clock == s.clock + 1
    requires id < |s.entries| == |s'.entries| && EntryOk(s, id) && Stamps(s, s', t, id) && s.txns[t].state.Active?
    requires s'.txns[t].state.Committing? && s'.txns[t].commit == Some(s.clock + 1)
    ensures EntryOk(s', id)
  {
    assert Listed(s', id) <==> Listed(s, id);
  }

  lemma CommitVersions(s: State, s': State, t: nat, name: string, vs: seq<nat>)
    requires Shape(s) && Shape(s') && EntriesOk(s) && VersionsOk(s, name, vs) && Moves(s, s', t)
    requires s.txns[t].state.Active? && !s'.txns[t].state.Active? && |s'.entries| == |s.entries|
    requires forall id :: 0 <= id < |s.entries| ==>
               Stamps(s, s', t, id)
    ensures VersionsOk(s', name, vs)
  {
    assert forall i :: 0 <= i < |vs| ==> Stamps(s, s', t, vs[i]);
    forall i, j | 0 <= i < j < |vs| ensures Precedes(s'.txns, s'.entries[vs[j]], s'.entries[vs[i]]) {
      assert Precedes(s.txns, s.entries[vs[j]], s.entries[vs[i]]);
      assert EntryOk(s, vs[j]) && EntryOk(s, vs[i]) && Stamps(s, s', t, vs[i]) && Stamps(s, s', t, vs[j]);
    }
  }

  lemma CommitCatalog(s: State, t: nat)
    requires Shape(s) && TimeOk(s) && TablesOk(s) && EntriesOk(s) && NamesOk(s) && NextUp(s, t)
    requires Shape(PrepareCommit(s, t)) && Moves(s, PrepareCommit(s, t), t)
    requires PrepareCommit(s, t).txns[t].state.Committing? && PrepareCommit(s, t).txns[t].commit == Some(s.clock + 1)
    ensures EntriesOk(PrepareCommit(s, t)) && NamesOk(PrepareCommit(s, t))
  {
    var s' := PrepareCommit(s, t);
    forall id | 0 <= id < |s.entries|
      ensures EntryOk(s', id)
      ensures Stamps(s, s', t, id)
    {
      CommitEntry(s, t, id);
    }
    forall name | name in s'.names ensures VersionsOk(s', name, s'.names[name]) {
      CommitVersions(s, s', t, name, s.names[name]);
    }
    forall id | 0 <= id < |s.entries| ensures s'.entries[id].name == s.entries[id].name {
      assert Stamps(s, s', t, id);
    }
    SameNames(s, s');
  }

  lemma CommitTables(s: State, t: nat)
    requires Shape(s) && TablesOk(s) && NextUp(s, t) && Shape(PrepareCommit(s, t)) && Moves(s, PrepareCommit(s, t), t)
    ensures TablesOk(PrepareCommit(s, t))
  {
    var s' := PrepareCommit(s, t);
    forall u: nat, id: nat | u < |s'.txns| && Live(s'.txns[u]) && Wrote(s'.txns[u].tables, id)
      ensures s'.entries[id].txn == Some(u)
    {
      assert Live(s.txns[u]) && Wrote(s.txns[u].tables, id);
    }
  }

  /** A read check that passed rules out a table dropped before. */
  lemma CheckedTableStands(s: State, t: nat, table: nat, ts: nat)
    requires Shape(s) && t < |s.txns| && table < |s.entries| < UINT64 && EntryOk(s, table)
    requires !CheckFails(s, t, ts) && EncodeTable(s.db, table) in s.txns[t].symbols && s.clock < ts
    ensures s.entries[table].deleteAt == 0
  {
    DecodeEncoded(s.db, table, 0, 0);
    assert !Collides(s, EncodeTable(s.db, table), ts);
  }

  lemma CommitChild(s: State, t: nat, c: Child)
    requires Shape(s) && TablesOk(s) && NextUp(s, t) && c.table < |s.entries| < UINT64 && ChildOk(s, c) && EntryOk(s, c.table)
    requires !CheckFails(s, t, s.clock + 1)
    ensures var c', e' := StampChild(c, s.entries, t, s.clock + 1), StampEntry(s.entries[c.table], c.table, s.txns[t].tables, s.clock + 1);
            && c'.createAt <= s.clock + 1
            && (c'.createAt != 0 ==> e'.deleteAt == 0 || c'.createAt <= e'.deleteAt)
            && (c'.createAt == 0 && c'.txn.Some? ==> c.txn == c'.txn && c.createAt == 0)
  {
    MarkIsRecord(s, t, c.table);
    if c.txn == Some(t) && c.createAt == 0 {
      CheckedTableStands(s, t, c.table, s.clock + 1);
    }
  }

  lemma CommitChildren(s: State, t: nat)
    requires Shape(s) && TablesOk(s) && EntriesOk(s) && ChildrenOk(s) && NextUp(s, t) && |s.entries| < UINT64
    requires !CheckFails(s, t, s.clock + 1)
    requires Shape(PrepareCommit(s, t)) && Moves(s, PrepareCommit(s, t), t)
    ensures ChildrenOk(PrepareCommit(s, t))
  {
    var s' := PrepareCommit(s, t);
    forall i | 0 <= i < |s'.children| ensures ChildOk(s', s'.children[i]) {
      var c := s.children[i];
      assert ChildOk(s, c) && EntryOk(s, c.table);
      CommitChild(s, t, c);
    }
  }

  lemma CommitKeeps(s: State, t: nat)
    requires Core(s) && NextUp(s, t) && !CheckFails(s, t, s.clock + 1)
    ensures Core(PrepareCommit(s, t))
  {
    CommitShape(s, t);
    CommitCatalog(s, t);
    CommitTables(s, t);
    CommitChildren(s, t);
    MovedTime(s, PrepareCommit(s, t), t);
    MovedQueue(s, PrepareCommit(s, t), t, Commit);
    CommitStamps(s, t);
  }

  lemma CommitStamps(s: State, t: nat)
    requires Shape(s) && StampsOk(s) && TimeOk(s) && NextUp(s, t) && Moves(s, PrepareCommit(s, t), t)
    ensures StampsOk(PrepareCommit(s, t))
  {
    MovedStamps(s, PrepareCommit(s, t), t);
  }

  // ----- preparing a rollback -----

  lemma RollbackShape(s: State, t: nat)
    requires Shape(s) && TimeOk(s) && NextUp(s, t)
    ensures Shape(PrepareRollback(s, t)) && Moves(s, PrepareRollback(s, t), t)
    ensures PrepareRollback(s, t).txns[t].state.Rollbacking? && PrepareRollback(s, t).txns[t].commit == Some(s.clock + 1)
  {
    var s' := PrepareRollback(s, t);
    assert TxnOk(s.txns[t], s.clock);
    forall u, id | 0 <= u < |s'.txns| && id in s'.txns[u].tables ensures id < |s'.entries| {
      assert id in s.txns[u].tables;
    }
    forall i | 0 <= i < |s'.prepared| ensures s'.prepared[i].txn < |s'.txns| {
      assert i < |s.prepared| ==> s'.prepared[i] == s.prepared[i];
    }
    forall n, i | n in s'.names && 0 <= i < |s'.names[n]| ensures s'.names[n][i] < |s'.entries| {
      UnlistMembers(s.names[n], s.txns[t].tables);
      assert s'.names[n][i] in s'.names[n];
    }
  }

  lemma {:induction false} UnlistMembers(versions: seq<nat>, tables: map<nat, TxnTable>)
    ensures forall id :: id in Unlist(versions, tables) <==> id in versions && !(id in tables && tables[id].created)
  {
    if versions != [] {
      UnlistMembers(versions[1..], tables);
    }
  }

  /** What the unwinding does to an entry, by who is on it. */
  lemma RollbackEntry(s: State, t: nat, id: nat)
    requires Shape(s) && TablesOk(s) && NextUp(s, t) && id < |s.entries| && EntryOk(s, id)
    requires Shape(PrepareRollback(s, t)) && Moves(s, PrepareRollback(s, t), t)
    ensures EntryOk(PrepareRollback(s, t), id)
    ensures Unwinds(s, PrepareRollback(s, t), t, id)
  {
    var s' := PrepareRollback(s, t);
    MarkIsRecord(s, t, id);
    assert s'.entries[id] == UnwindEntry(s.entries[id], id, s.txns[t].tables);
    var name := s.entries[id].name;
    if name in s.names {
      UnlistMembers(s.names[name], s.txns[t].tables);
    }
  }

  /** Of two versions that stay, the older still precedes the newer. */
  lemma {:induction false} RollbackVersions(s: State, s': State, t: nat, name: string, vs: seq<nat>)
    requires Shape(s) && Shape(s') && EntriesOk(s) && TablesOk(s) && VersionsOk(s, name, vs) && Moves(s, s', t)
    requires s.txns[t].state.Active? && |s'.entries| == |s.entries|
    requires forall id :: 0 <= id < |s.entries| ==>
               Unwinds(s, s', t, id)
    ensures VersionsOk(s', name, Unlist(vs, s.txns[t].tables))
  {
    var tables := s.txns[t].tables;
    if vs != [] {
      assert Unwinds(s, s', t, vs[0]);
      VersionsTail(s, name, vs);
      RollbackVersions(s, s', t, name, vs[1..]);
      if !(vs[0] in tables && tables[vs[0]].created) {
        RollbackPairs(s, s', t, name, vs);
        OnTop(s', name, vs[0], Unlist(vs[1..], tables));
      }
    }
  }

  lemma RollbackPairs(s: State, s': State, t: nat, name: string, vs: seq<nat>)
    requires Shape(s) && Shape(s') && EntriesOk(s) && VersionsOk(s, name, vs) && Moves(s, s', t) && vs != []
    requires s.txns[t].state.Active? && |s'.entries| == |s.entries|
    requires !(vs[0] in s.txns[t].tables && s.txns[t].tables[vs[0]].created)
    requires forall id :: 0 <= id < |s.entries| ==> Unwinds(s, s', t, id)
    ensures forall j :: 0 <= j < |Unlist(vs[1..], s.txns[t].tables)| ==>
              var id := Unlist(vs[1..], s.txns[t].tables)[j];
              id < |s'.entries| && id != vs[0] && Precedes(s'.txns, s'.entries[id], s'.entries[vs[0]])
  {
    var rest := Unlist(vs[1..], s.txns[t].tables);
    UnlistMembers(vs[1..], s.txns[t].tables);
    forall j | 0 <= j < |rest|
      ensures rest[j] < |s'.entries| && rest[j] != vs[0] && Precedes(s'.txns, s'.entries[rest[j]], s'.entries[vs[0]])
    {
      assert rest[j] in rest;
      var k :| 0 <= k < |vs[1..]| && vs[1..][k] == rest[j];
      assert vs[k + 1] == rest[j];
      assert Precedes(s.txns, s.entries[vs[k + 1]], s.entries[vs[0]]);
      RollbackPair(s, s', t, rest[j], vs[0]);
    }
  }

  lemma VersionsTail(s: State, name: string, vs: seq<nat>)
    requires Shape(s) && VersionsOk(s, name, vs) && vs != []
    ensures VersionsOk(s, name, vs[1..])
  {
    forall i, j | 0 <= i < j < |vs[1..]|
      ensures vs[1..][i] != vs[1..][j] && Precedes(s.txns, s.entries[vs[1..][j]], s.entries[vs[1..][i]])
    {
      assert vs[1..][i] == vs[i + 1] && vs[1..][j] == vs[j + 1];
    }
  }

  lemma RollbackPair(s: State, s': State, t: nat, older: nat, newer: nat)
    requires Shape(s) && Shape(s') && EntriesOk(s) && Moves(s, s', t) && s.txns[t].state.Active?
    requires older < |s.entries| && newer < |s.entries| && |s'.entries| == |s.entries|
    requires forall id :: 0 <= id < |s.entries| ==>
               Unwinds(s, s', t, id)
    requires !(newer in s.txns[t].tables && s.txns[t].tables[newer].created)
    requires Precedes(s.txns, s.entries[older], s.entries[newer])
    ensures Precedes(s'.txns, s'.entries[older], s'.entries[newer])
  {
    assert EntryOk(s, older) && EntryOk(s, newer) && Unwinds(s, s', t, older) && Unwinds(s, s', t, newer);
  }

  lemma RollbackEntries(s: State, t: nat)
    requires Shape(s) && TablesOk(s) && EntriesOk(s) && NextUp(s, t)
    requires Shape(PrepareRollback(s, t)) && Moves(s, PrepareRollback(s, t), t)
    ensures EntriesOk(PrepareRollback(s, t))
    ensures forall id :: 0 <= id < |s.entries| ==> Unwinds(s, PrepareRollback(s, t), t, id)
  {
    forall id | 0 <= id < |s.entries|
      ensures EntryOk(PrepareRollback(s, t), id) && Unwinds(s, PrepareRollback(s, t), t, id)
    {
      RollbackEntry(s, t, id);
    }
  }

  lemma RollbackNames(s: State, s': State, t: nat)
    requires Shape(s) && Shape(s') && TablesOk(s) && EntriesOk(s) && NamesOk(s) && Moves(s, s', t)
    requires s.txns[t].state.Active? && |s'.entries| == |s.entries|
    requires s'.names == map name | name in s.names :: Unlist(s.names[name], s.txns[t].tables)
    requires forall id :: 0 <= id < |s.entries| ==> Unwinds(s, s', t, id)
    ensures NamesOk(s')
  {
    forall name | name in s'.names ensures VersionsOk(s', name, s'.names[name]) {
      RollbackVersions(s, s', t, name, s.names[name]);
    }
    forall id | 0 <= id < |s.entries| ensures s'.entries[id].name == s.entries[id].name {
      assert Unwinds(s, s', t, id);
    }
    SameNames(s, s');
  }

  lemma RollbackTables(s: State, t: nat)
    requires Shape(s) && TablesOk(s) && EntriesOk(s) && NextUp(s, t)
    requires Shape(PrepareRollback(s, t)) && Moves(s, PrepareRollback(s, t), t) && PrepareRollback(s, t).txns[t].state.Rollbacking?
    ensures TablesOk(PrepareRollback(s, t))
  {
    var s' := PrepareRollback(s, t);
    forall u: nat, id: nat | u < |s'.txns| && Live(s'.txns[u]) && Wrote(s'.txns[u].tables, id)
      ensures s'.entries[id].txn == Some(u)
    {
      assert Live(s.txns[u]) && Wrote(s.txns[u].tables, id);
      assert id in s.txns[u].tables;
      MarkIsRecord(s, t, id);
      assert s'.entries[id] == UnwindEntry(s.entries[id], id, s.txns[t].tables);
    }
  }

  lemma RollbackChildren(s: State, t: nat)
    requires Shape(s) && ChildrenOk(s) && NextUp(s, t)
    requires Shape(PrepareRollback(s, t)) && Moves(s, PrepareRollback(s, t), t)
    ensures ChildrenOk(PrepareRollback(s, t))
  {
    var s' := PrepareRollback(s, t);
    forall i | 0 <= i < |s'.children| ensures ChildOk(s', s'.children[i]) {
      assert ChildOk(s, s.children[i]);
    }
  }

  lemma RollbackStamps(s: State, t: nat)
    requires Shape(s) && StampsOk(s) && TimeOk(s) && NextUp(s, t) && Moves(s, PrepareRollback(s, t), t)
    ensures StampsOk(PrepareRollback(s, t))
  {
    MovedStamps(s, PrepareRollback(s, t), t);
  }

  lemma RollbackKeeps(s: State, t: nat)
    requires Core(s) && NextUp(s, t)
    ensures Core(PrepareRollback(s, t))
  {
    RollbackShape(s, t);
    RollbackEntries(s, t);
    RollbackNames(s, PrepareRollback(s, t), t);
    RollbackTables(s, t);
    RollbackChildren(s, t);
    MovedTime(s, PrepareRollback(s, t), t);
    MovedQueue(s, PrepareRollback(s, t), t, Rollback);
    RollbackStamps(s, t);
  }

  // ----- applying -----

  /** The oldest prepared transaction reaches its final state. */
  ghost predicate Finishes(s: State, s': State, t: nat) {
    && Moves(s, s', t) && s'.clock == s.clock && s'.received == s.received
    && s.prepared != [] && s.prepared[0].txn == t && s'.prepared == s.prepared[1..]
    && s'.txns[t].commit == s.txns[t].commit && !s.txns[t].state.Active?
    && (s'.txns[t].state.Committed? || s'.txns[t].state.Rollbacked?)
  }

  lemma ApplyShape(s: State)
    requires Shape(s) && QueueOk(s) && TimeOk(s) && s.prepared != []
    ensures Shape(Apply(s)) && Finishes(s, Apply(s), s.prepared[0].txn)
    ensures Apply(s).txns[s.prepared[0].txn].state == if s.prepared[0].request.Commit? then Committed else Rollbacked
  {
    var s' := Apply(s);
    assert s.txns[s.prepared[0].txn].state == StateOf(s.prepared[0].request);
    forall u, id | 0 <= u < |s'.txns| && id in s'.txns[u].tables ensures id < |s'.entries| {
      assert id in s.txns[u].tables;
    }
    forall i | 0 <= i < |s'.prepared| ensures s'.prepared[i].txn < |s'.txns| {
      assert s'.prepared[i] == s.prepared[i + 1];
    }
  }

  lemma FinishTime(s: State, s': State, t: nat)
    requires TimeOk(s) && Finishes(s, s', t) && s.txns[t].submitted
    ensures TimeOk(s')
  {
    forall u | 0 <= u < |s'.txns| ensures TxnOk(s'.txns[u], s'.clock) && s'.txns[u].commit == s.txns[u].commit {
      assert TxnOk(s.txns[u], s.clock);
    }
    forall u, v | 0 <= u < v < |s'.txns| && s'.txns[u].commit.Some? ensures s'.txns[u].commit != s'.txns[v].commit {
      assert s.txns[u].commit != s.txns[v].commit;
    }
    forall u, v | 0 <= u < |s'.txns| && 0 <= v < |s'.txns| ensures s'.txns[v].commit != Some(s'.txns[u].start) {
      assert s.txns[v].commit != Some(s.txns[u].start);
    }
  }

  lemma FinishOrder(s: State, s': State, t: nat)
    requires Shape(s) && Shape(s') && QueueOk(s) && Finishes(s, s', t)
    ensures forall i :: 0 <= i < |s'.received| ==>
              s'.txns[s'.received[i].txn].state.Active? && s'.txns[s'.received[i].txn].submitted
    ensures forall i :: 0 <= i < |s'.prepared| ==>
              s'.txns[s'.prepared[i].txn].commit.Some? && s'.txns[s'.prepared[i].txn].state == StateOf(s'.prepared[i].request)
    ensures forall i, j :: 0 <= i < j < |s'.prepared| ==>
              s'.txns[s'.prepared[i].txn].commit.value < s'.txns[s'.prepared[j].txn].commit.value
  {
    forall i | 0 <= i < |s'.prepared| ensures s'.prepared[i] == s.prepared[i + 1] && s'.prepared[i].txn != t {
      assert s.txns[s.prepared[0].txn].commit.value < s.txns[s.prepared[i + 1].txn].commit.value;
    }
  }

  lemma FinishQueue(s: State, s': State, t: nat)
    requires Shape(s) && Shape(s') && QueueOk(s) && Finishes(s, s', t)
    ensures QueueOk(s')
  {
    FinishOrder(s, s', t);
    forall u | 0 <= u < |s'.txns| && s'.txns[u].submitted && s'.txns[u].state.Active? ensures InReceived(s', u) {
      assert InReceived(s, u);
    }
    forall u | 0 <= u < |s'.txns| && (s'.txns[u].state.Committing? || s'.txns[u].state.Rollbacking?) ensures InPrepared(s', u) {
      assert InPrepared(s, u);
      var i :| 0 <= i < |s.prepared| && s.prepared[i].txn == u;
      assert s'.prepared[i - 1].txn == u;
    }
  }

  /** An entry under a committing transaction is released, unless it was created and
      dropped by it; every other entry stays. */
  ghost predicate Releases(s: State, s': State, t: nat, id: nat)
    requires id < |s.entries| && id < |s'.entries|
  {
    s'.entries[id] == if s.entries[id].txn == Some(t) && !s.entries[id].CreateAndDropInSameTxn()
                      then s.entries[id].ApplyCommit() else s.entries[id]
  }

  lemma ApplyEntry(s: State, id: nat)
    requires Shape(s) && TimeOk(s) && QueueOk(s) && TablesOk(s) && s.prepared != [] && id < |s.entries| && EntryOk(s, id)
    requires Shape(Apply(s)) && Finishes(s, Apply(s), s.prepared[0].txn)
    requires Apply(s).txns[s.prepared[0].txn].state == if s.prepared[0].request.Commit? then Committed else Rollbacked
    ensures EntryOk(Apply(s), id) && Releases(s, Apply(s), s.prepared[0].txn, id)
  {
    var s', t := Apply(s), s.prepared[0].txn;
    assert s.txns[t].state == StateOf(s.prepared[0].request) && TxnOk(s.txns[t], s.clock);
    assert Listed(s', id) <==> Listed(s, id);
    if s.prepared[0].request.Commit? {
      MarkIsRecord(s, t, id);
      assert s'.entries[id] == SettleEntry(s.entries[id], id, s.txns[t].tables);
    }
  }

  lemma FinishVersions(s: State, s': State, t: nat, name: string, vs: seq<nat>)
    requires Shape(s) && Shape(s') && VersionsOk(s, name, vs) && Finishes(s, s', t) && |s'.entries| == |s.entries|
    requires forall id :: 0 <= id < |s.entries| ==> Releases(s, s', t, id)
    ensures VersionsOk(s', name, vs)
  {
    assert forall i :: 0 <= i < |vs| ==> Releases(s, s', t, vs[i]);
    forall i, j | 0 <= i < j < |vs| ensures Precedes(s'.txns, s'.entries[vs[j]], s'.entries[vs[i]]) {
      assert Precedes(s.txns, s.entries[vs[j]], s.entries[vs[i]]);
      assert Releases(s, s', t, vs[i]) && Releases(s, s', t, vs[j]);
    }
  }

  lemma ApplyEntries(s: State)
    requires Shape(s) && TimeOk(s) && QueueOk(s) && TablesOk(s) && EntriesOk(s) && s.prepared != []
    requires Shape(Apply(s)) && Finishes(s, Apply(s), s.prepared[0].txn)
    requires Apply(s).txns[s.prepared[0].txn].state == if s.prepared[0].request.Commit? then Committed else Rollbacked
    ensures EntriesOk(Apply(s))
    ensures forall id :: 0 <= id < |s.entries| ==> Releases(s, Apply(s), s.prepared[0].txn, id)
  {
    forall id | 0 <= id < |s.entries| ensures EntryOk(Apply(s), id) && Releases(s, Apply(s), s.prepared[0].txn, id) {
      ApplyEntry(s, id);
    }
  }

  lemma FinishNames(s: State, s': State, t: nat)
    requires Shape(s) && Shape(s') && NamesOk(s) && Finishes(s, s', t) && |s'.entries| == |s.entries| && s'.names == s.names
    requires forall id :: 0 <= id < |s.entries| ==> Releases(s, s', t, id)
    ensures NamesOk(s')
  {
    forall name | name in s'.names ensures VersionsOk(s', name, s'.names[name]) {
      FinishVersions(s, s', t, name, s.names[name]);
    }
    forall id | 0 <= id < |s.entries| ensures s'.entries[id].name == s.entries[id].name {
      assert Releases(s, s', t, id);
    }
    SameNames(s, s');
  }

  lemma ApplyCatalog(s: State)
    requires Shape(s) && TimeOk(s) && QueueOk(s) && TablesOk(s) && EntriesOk(s) && NamesOk(s) && s.prepared != []
    requires Shape(Apply(s)) && Finishes(s, Apply(s), s.prepared[0].txn)
    requires Apply(s).txns[s.prepared[0].txn].state == if s.prepared[0].request.Commit? then Committed else Rollbacked
    ensures EntriesOk(Apply(s)) && NamesOk(Apply(s)) && TablesOk(Apply(s))
  {
    ApplyEntries(s);
    FinishNames(s, Apply(s), s.prepared[0].txn);
    FinishTables(s, Apply(s), s.prepared[0].txn);
  }

  lemma FinishTables(s: State, s': State, t: nat)
    requires Shape(s) && Shape(s') && TablesOk(s) && Finishes(s, s', t) && |s'.entries| == |s.entries|
    requires forall id :: 0 <= id < |s.entries| ==> Releases(s, s', t, id)
    ensures TablesOk(s')
  {
    forall u: nat, id: nat | u < |s'.txns| && Live(s'.txns[u]) && Wrote(s'.txns[u].tables, id)
      ensures s'.entries[id].txn == Some(u)
    {
      assert Live(s.txns[u]) && Wrote(s.txns[u].tables, id);
      assert id in s.txns[u].tables;
      assert Releases(s, s', t, id);
    }
  }

  lemma ApplyRest(s: State)
    requires Shape(s) && ChildrenOk(s) && StampsOk(s) && TimeOk(s) && s.prepared != []
    requires Shape(Apply(s)) && Finishes(s, Apply(s), s.prepared[0].txn)
    ensures ChildrenOk(Apply(s)) && StampsOk(Apply(s))
  {
    var s' := Apply(s);
    forall id | 0 <= id < |s.entries|
      ensures s'.entries[id].createAt == s.entries[id].createAt && s'.entries[id].deleteAt == s.entries[id].deleteAt
    {
    }
    StampsFrame(s, s');
    forall i | 0 <= i < |s'.children| ensures ChildOk(s', s'.children[i]) {
      assert ChildOk(s, s.children[i]);
    }
  }

  lemma ApplyKeeps(s: State)
    requires Core(s)
    ensures Core(Apply(s))
  {
    if s.prepared != [] {
      var t := s.prepared[0].txn;
      assert TxnOk(s.txns[t], s.clock);
      ApplyShape(s);
      FinishTime(s, Apply(s), t);
      FinishQueue(s, Apply(s), t);
      ApplyCatalog(s);
      ApplyRest(s);
    }
  }

  lemma PrepareKeeps(s: State)
    requires Core(s)
    ensures Core(Prepare(s))
  {
    if s.received != [] {
      var op := s.received[0];
      assert NextUp(s, op.txn);
      if op.request.Commit? && !CheckFails(s, op.txn, s.clock + 1) {
        CommitKeeps(s, op.txn);
      } else {
        RollbackKeeps(s, op.txn);
      }
    }
  }
}
