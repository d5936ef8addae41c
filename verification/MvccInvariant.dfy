/** What every step of the catalog keeps. */
module MvccInvariant {
  import opened Keys
  import opened Wire
  import opened Options
  import opened Mvcc

  /** Timestamps come from one allocator: they are all different, starts follow the order
      of the transactions, and a commit comes after its start. */
  ghost predicate TimeOk(s: State) {
    && (forall t {:trigger TxnOk(s.txns[t], s.clock)} :: 0 <= t < |s.txns| ==> TxnOk(s.txns[t], s.clock))
    && (forall t, u {:trigger s.txns[t].start, s.txns[u].start} :: 0 <= t < u < |s.txns| ==> s.txns[t].start < s.txns[u].start)
    && (forall t, u {:trigger s.txns[t].commit, s.txns[u].commit} :: 0 <= t < u < |s.txns| && s.txns[t].commit.Some? ==> s.txns[t].commit != s.txns[u].commit)
    && (forall t, u {:trigger s.txns[u].commit, s.txns[t].start} :: 0 <= t < |s.txns| && 0 <= u < |s.txns| ==> s.txns[u].commit != Some(s.txns[t].start))
  }

  ghost predicate TxnOk(txn: Txn, clock: nat) {
    && 0 < txn.start <= clock
    && (txn.commit.Some? ==> txn.start < txn.commit.value <= clock)
    && (txn.commit.None? <==> txn.state.Active?)
    && (!txn.submitted ==> txn.state.Active?)
  }

  ghost function StateOf(request: Request): TxnState {
    if request.Commit? then Committing else Rollbacking
  }

  ghost predicate InReceived(s: State, t: nat) {
    exists i :: 0 <= i < |s.received| && s.received[i].txn == t
  }

  ghost predicate InPrepared(s: State, t: nat) {
    exists i :: 0 <= i < |s.prepared| && s.prepared[i].txn == t
  }

  /** The two serial queues: each waiting transaction is in exactly the queue its state
      says, once, and the prepared ones are in the order of their timestamps. */
  ghost predicate QueueOk(s: State)
    requires Shape(s)
  {
    && (forall i {:trigger s.received[i].txn} :: 0 <= i < |s.received| ==>
          s.txns[s.received[i].txn].state.Active? && s.txns[s.received[i].txn].submitted)
    && (forall i, j {:trigger s.received[i].txn, s.received[j].txn} :: 0 <= i < j < |s.received| ==> s.received[i].txn != s.received[j].txn)
    && (forall i {:trigger s.prepared[i].txn} :: 0 <= i < |s.prepared| ==>
          s.txns[s.prepared[i].txn].commit.Some? &&
          s.txns[s.prepared[i].txn].state == StateOf(s.prepared[i].request))
    && (forall i, j {:trigger s.prepared[i].txn, s.prepared[j].txn} :: 0 <= i < j < |s.prepared| ==>
          s.txns[s.prepared[i].txn].commit.value < s.txns[s.prepared[j].txn].commit.value)
    && (forall t {:trigger InReceived(s, t)} :: 0 <= t < |s.txns| && s.txns[t].submitted && s.txns[t].state.Active? ==> InReceived(s, t))
    && (forall t {:trigger InPrepared(s, t)} :: 0 <= t < |s.txns| && (s.txns[t].state.Committing? || s.txns[t].state.Rollbacking?) ==> InPrepared(s, t))
  }

  /** The entry is on its name's list; it is not exactly when its create was rolled back. */
  ghost predicate Listed(s: State, id: nat) {
    id < |s.entries| && s.entries[id].name in s.names && id in s.names[s.entries[id].name]
  }

  /** What an entry looks like while a transaction is on it. */
  ghost predicate WriteOk(e: Entry, txn: Txn, did: TxnTable) {
    match txn.state
    case Active =>
      && e.deleteAt == 0
      && (did.created <==> e.createAt == 0)
      && (did.dropped <==> e.op.SoftDelete?)
      && (did.created || did.dropped)
      && e.prev == (if did.created then None else Some(Create))
    case Committing =>
      && txn.commit.Some?
      && (e.op.SoftDelete? ==> e.deleteAt == txn.commit.value)
      && (e.op.Create? ==> e.deleteAt == 0 && e.createAt == txn.commit.value)
      && (did.created || did.dropped)
    case Committed =>
      && txn.commit.Some?
      && e.op.SoftDelete? && e.createAt == e.deleteAt == txn.commit.value
    case _ => false
  }

  ghost predicate EntryOk(s: State, id: nat)
    requires Shape(s) && id < |s.entries|
  {
    var e := s.entries[id];
    && e.createAt <= s.clock && e.deleteAt <= s.clock
    && (e.deleteAt != 0 ==> 0 < e.createAt <= e.deleteAt)
    && (e.txn.None? && Listed(s, id) ==> e.createAt != 0 && (e.op.SoftDelete? <==> e.deleteAt != 0))
    && (!Listed(s, id) ==> e.txn.None? && e.createAt == 0 && e.deleteAt == 0)
    && (e.txn.Some? ==>
          var w := s.txns[e.txn.value];
          id in w.tables && WriteOk(e, w, w.tables[id]))
  }

  ghost predicate EntriesOk(s: State)
    requires Shape(s)
  {
    forall id {:trigger EntryOk(s, id)} :: 0 <= id < |s.entries| ==> EntryOk(s, id)
  }

  ghost predicate Live(txn: Txn) {
    txn.state.Active? || txn.state.Committing?
  }

  /** What a live transaction wrote still carries its mark. */
  ghost predicate TablesOk(s: State)
    requires Shape(s)
  {
    forall t: nat, id: nat :: t < |s.txns| && Live(s.txns[t]) && Wrote(s.txns[t].tables, id) ==>
      s.entries[id].txn == Some(t)
  }

  /** No stamp coincides with the start of a transaction. */
  ghost predicate StampsOk(s: State) {
    forall id, t {:trigger s.entries[id].createAt, s.txns[t].start} {:trigger s.entries[id].deleteAt, s.txns[t].start} :: 0 <= id < |s.entries| && 0 <= t < |s.txns| ==>
      s.entries[id].createAt != s.txns[t].start && s.entries[id].deleteAt != s.txns[t].start
  }

  /** The older of two versions of a name is gone before the newer one begins: either both
      facts are stamped, or one uncommitted transaction replaces the older by the newer. */
  ghost predicate Precedes(txns: seq<Txn>, older: Entry, newer: Entry)
    requires older.txn.Some? ==> older.txn.value < |txns|
  {
    || (older.deleteAt != 0 && (newer.createAt == 0 || older.deleteAt <= newer.createAt))
    || (older.deleteAt == 0 && older.IsDroppedUncommitted() && txns[older.txn.value].state.Active?
        && newer.txn == older.txn && newer.createAt == 0)
  }

  ghost predicate VersionsOk(s: State, name: string, versions: seq<nat>)
    requires Shape(s)
  {
    && (forall i :: 0 <= i < |versions| ==> versions[i] < |s.entries| && s.entries[versions[i]].name == name)
    && (forall i, j :: 0 <= i < j < |versions| ==> versions[i] != versions[j])
    && (forall i, j {:trigger Precedes(s.txns, s.entries[versions[j]], s.entries[versions[i]])} :: 0 <= i < j < |versions| ==>
          Precedes(s.txns, s.entries[versions[j]], s.entries[versions[i]]))
  }

  ghost predicate NamesOk(s: State)
    requires Shape(s)
  {
    && (forall name {:trigger VersionsOk(s, name, s.names[name])} :: name in s.names ==> VersionsOk(s, name, s.names[name]))
    && (forall id {:trigger s.entries[id].name} :: 0 <= id < |s.entries| ==> s.entries[id].name in s.names)
    && (forall name :: name in s.names ==> exists id :: 0 <= id < |s.entries| && s.entries[id].name == name)
  }

  /** No segment or block is stamped after its table's drop; one that is not stamped yet
      has its table in the read set of its transaction. */
  ghost predicate ChildOk(s: State, c: Child)
    requires Shape(s) && c.table < |s.entries|
  {
    && c.createAt <= s.clock
    && (c.createAt != 0 ==> s.entries[c.table].deleteAt == 0 || c.createAt <= s.entries[c.table].deleteAt)
    && (c.createAt == 0 && c.txn.Some? ==>
          c.txn.value < |s.txns| && EncodeTable(s.db, c.table) in s.txns[c.txn.value].symbols)
  }

  ghost predicate ChildrenOk(s: State)
    requires Shape(s)
  {
    forall i {:trigger ChildOk(s, s.children[i])} :: 0 <= i < |s.children| ==> ChildOk(s, s.children[i])
  }

  ghost predicate Core(s: State) {
    && Shape(s) && |s.entries| < UINT64
    && TimeOk(s) && QueueOk(s) && StampsOk(s)
    && EntriesOk(s) && TablesOk(s) && NamesOk(s) && ChildrenOk(s)
  }

  lemma InitCore(db: nat)
    requires db < UINT64
    ensures Core(Init(db))
  {
  }

  // ----- steps that leave the catalog alone -----

  /** The transaction kept its standing and only recorded more. */
  ghost predicate Extends(a: Txn, b: Txn) {
    && a.start == b.start && a.commit == b.commit && a.state == b.state && a.symbols <= b.symbols
    && (forall id :: id in a.tables ==> id in b.tables && b.tables[id] == a.tables[id])
  }

  ghost predicate TxnsExtend(s: State, s': State) {
    && s.clock <= s'.clock && |s.txns| <= |s'.txns| && s.db == s'.db
    && (forall t :: 0 <= t < |s.txns| ==> Extends(s.txns[t], s'.txns[t]))
  }

  lemma EntryFrame(s: State, s': State, id: nat)
    requires Shape(s) && Shape(s') && TxnsExtend(s, s')
    requires id < |s.entries| && id < |s'.entries| && s'.entries[id] == s.entries[id]
    requires Listed(s', id) <==> Listed(s, id)
    requires EntryOk(s, id)
    ensures EntryOk(s', id)
  {
  }

  lemma VersionsFrame(s: State, s': State, name: string, vs: seq<nat>)
    requires Shape(s) && Shape(s') && TxnsExtend(s, s')
    requires s.entries <= s'.entries && VersionsOk(s, name, vs)
    ensures VersionsOk(s', name, vs)
  {
    forall i, j | 0 <= i < j < |vs| ensures Precedes(s'.txns, s'.entries[vs[j]], s'.entries[vs[i]]) {
      assert Precedes(s.txns, s.entries[vs[j]], s.entries[vs[i]]);
    }
  }

  /** One more version in front of a list. */
  lemma OnTop(s: State, name: string, id: nat, vs: seq<nat>)
    requires Shape(s) && VersionsOk(s, name, vs) && id < |s.entries| && s.entries[id].name == name
    requires forall j :: 0 <= j < |vs| ==> vs[j] != id && Precedes(s.txns, s.entries[vs[j]], s.entries[id])
    ensures VersionsOk(s, name, [id] + vs)
  {
    var all := [id] + vs;
    forall i, j | 0 <= i < j < |all| ensures Precedes(s.txns, s.entries[all[j]], s.entries[all[i]]) {
      assert all[j] == vs[j - 1];
      if i > 0 {
        assert all[i] == vs[i - 1];
        assert Precedes(s.txns, s.entries[vs[j - 1]], s.entries[vs[i - 1]]);
      }
    }
  }

  lemma EntriesFrame(s: State, s': State)
    requires Shape(s) && Shape(s') && TxnsExtend(s, s')
    requires s'.entries == s.entries && s'.names == s.names
    requires EntriesOk(s) && NamesOk(s)
    ensures EntriesOk(s') && NamesOk(s')
  {
    forall id | 0 <= id < |s'.entries| ensures EntryOk(s', id) {
      EntryFrame(s, s', id);
    }
    forall name | name in s'.names ensures VersionsOk(s', name, s'.names[name]) {
      VersionsFrame(s, s', name, s.names[name]);
    }
  }

  lemma ChildFrame(s: State, s': State, c: Child)
    requires Shape(s) && Shape(s') && TxnsExtend(s, s') && c.table < |s.entries| <= |s'.entries|
    requires s'.entries[c.table].deleteAt == s.entries[c.table].deleteAt
    requires ChildOk(s, c)
    ensures ChildOk(s', c)
  {
  }

  lemma ChildrenFrame(s: State, s': State)
    requires Shape(s) && Shape(s') && TxnsExtend(s, s') && ChildrenOk(s)
    requires s.entries <= s'.entries && s'.children == s.children
    ensures ChildrenOk(s')
  {
    forall i | 0 <= i < |s'.children| ensures ChildOk(s', s'.children[i]) {
      ChildFrame(s, s', s.children[i]);
    }
  }

  lemma SameNames(s: State, s': State)
    requires Shape(s) && NamesOk(s) && |s'.entries| == |s.entries| && s'.names.Keys == s.names.Keys
    requires forall id :: 0 <= id < |s.entries| ==> s'.entries[id].name == s.entries[id].name
    ensures forall id :: 0 <= id < |s'.entries| ==> s'.entries[id].name in s'.names
    ensures forall name :: name in s'.names ==> exists id :: 0 <= id < |s'.entries| && s'.entries[id].name == name
  {
    forall name | name in s'.names ensures exists id :: 0 <= id < |s'.entries| && s'.entries[id].name == name {
      assert name in s.names;
      var id :| 0 <= id < |s.entries| && s.entries[id].name == name;
      assert s'.entries[id].name == name;
    }
  }

  /** Neither the clock, nor the queues, nor the standing of any transaction changed. */
  ghost predicate SameStanding(s: State, s': State) {
    && |s'.txns| == |s.txns| && s'.clock == s.clock
    && s'.received == s.received && s'.prepared == s.prepared
    && forall t :: 0 <= t < |s.txns| ==>
         && s'.txns[t].state == s.txns[t].state && s'.txns[t].commit == s.txns[t].commit
         && s'.txns[t].start == s.txns[t].start && s'.txns[t].submitted == s.txns[t].submitted
  }

  lemma QueueFrame(s: State, s': State)
    requires Shape(s) && Shape(s') && QueueOk(s) && SameStanding(s, s')
    ensures QueueOk(s')
  {
    forall t | 0 <= t < |s'.txns| && s'.txns[t].submitted && s'.txns[t].state.Active? ensures InReceived(s', t) {
      assert InReceived(s, t);
    }
    forall t | 0 <= t < |s'.txns| && (s'.txns[t].state.Committing? || s'.txns[t].state.Rollbacking?) ensures InPrepared(s', t) {
      assert InPrepared(s, t);
    }
  }

  lemma TimeFrame(s: State, s': State)
    requires TimeOk(s) && |s'.txns| == |s.txns| && s'.clock == s.clock
    requires forall t :: 0 <= t < |s.txns| ==>
               s'.txns[t].state == s.txns[t].state && s'.txns[t].commit == s.txns[t].commit &&
               s'.txns[t].start == s.txns[t].start && (s.txns[t].submitted ==> s'.txns[t].submitted)
    ensures TimeOk(s')
  {
    forall t | 0 <= t < |s'.txns| ensures TxnOk(s'.txns[t], s'.clock) {
      assert TxnOk(s.txns[t], s.clock);
    }
    forall t, u | 0 <= t < u < |s'.txns| && s'.txns[t].commit.Some? ensures s'.txns[t].commit != s'.txns[u].commit {
      assert s.txns[t].commit != s.txns[u].commit;
    }
    forall t, u | 0 <= t < |s'.txns| && 0 <= u < |s'.txns| ensures s'.txns[u].commit != Some(s'.txns[t].start) {
      assert s.txns[u].commit != Some(s.txns[t].start);
    }
  }

  /** Entries keep their stamps, or are new and have none; starts do not change. */
  lemma StampsFrame(s: State, s': State)
    requires StampsOk(s) && TimeOk(s) && |s'.txns| == |s.txns| && |s.entries| <= |s'.entries|
    requires forall t :: 0 <= t < |s.txns| ==> s'.txns[t].start == s.txns[t].start
    requires forall id :: 0 <= id < |s'.entries| ==>
               if id < |s.entries| then s'.entries[id].createAt == s.entries[id].createAt && s'.entries[id].deleteAt == s.entries[id].deleteAt
               else s'.entries[id].createAt == 0 == s'.entries[id].deleteAt
    ensures StampsOk(s')
  {
    forall id, t | 0 <= id < |s'.entries| && 0 <= t < |s'.txns|
      ensures s'.entries[id].createAt != s'.txns[t].start && s'.entries[id].deleteAt != s'.txns[t].start
    {
      assert TxnOk(s.txns[t], s.clock) && s'.txns[t].start == s.txns[t].start;
      if id < |s.entries| {
        assert s.entries[id].createAt != s.txns[t].start && s.entries[id].deleteAt != s.txns[t].start;
      }
    }
  }

  /** A step that leaves the tables and the standing of every transaction as they are. */
  lemma UnchangedKeeps(s: State, s': State)
    requires Core(s) && Shape(s') && TxnsExtend(s, s') && SameStanding(s, s')
    requires s'.entries == s.entries && s'.names == s.names && TablesOk(s') && ChildrenOk(s')
    ensures Core(s')
  {
    TimeFrame(s, s');
    QueueFrame(s, s');
    EntriesFrame(s, s');
    StampsFrame(s, s');
  }

  // ----- start -----

  lemma StartShape(s: State)
    requires Shape(s)
    ensures Shape(StartTxn(s)) && TxnsExtend(s, StartTxn(s))
  {
  }

  lemma StartTime(s: State)
    requires TimeOk(s)
    ensures TimeOk(StartTxn(s))
  {
    var s', n := StartTxn(s), |s.txns|;
    forall t | 0 <= t < |s'.txns| ensures TxnOk(s'.txns[t], s'.clock) && (t < n ==> s'.txns[t] == s.txns[t] && s.txns[t].start <= s.clock) {
      if t < n {
        assert TxnOk(s.txns[t], s.clock);
      }
    }
    forall t, u | 0 <= t < |s'.txns| && 0 <= u < |s'.txns|
      ensures s'.txns[u].commit != Some(s'.txns[t].start)
    {
      if t < n && u < n {
        assert s.txns[u].commit != Some(s.txns[t].start);
      } else if u < n {
        assert TxnOk(s.txns[u], s.clock);
      }
    }
  }

  lemma StartQueue(s: State)
    requires Shape(s) && QueueOk(s) && Shape(StartTxn(s))
    ensures QueueOk(StartTxn(s))
  {
    var s' := StartTxn(s);
    assert forall t :: 0 <= t < |s.txns| ==> s'.txns[t] == s.txns[t];
    forall t | 0 <= t < |s'.txns| && s'.txns[t].submitted && s'.txns[t].state.Active? ensures InReceived(s', t) {
      assert InReceived(s, t);
    }
    forall t | 0 <= t < |s'.txns| && (s'.txns[t].state.Committing? || s'.txns[t].state.Rollbacking?) ensures InPrepared(s', t) {
      assert InPrepared(s, t);
    }
  }

  lemma StartStamps(s: State)
    requires Shape(s) && StampsOk(s) && EntriesOk(s)
    ensures StampsOk(StartTxn(s))
  {
    var s' := StartTxn(s);
    forall id, t | 0 <= id < |s'.entries| && 0 <= t < |s'.txns|
      ensures s'.entries[id].createAt != s'.txns[t].start && s'.entries[id].deleteAt != s'.txns[t].start
    {
      assert EntryOk(s, id);
      if t < |s.txns| {
        assert s.entries[id].createAt != s.txns[t].start && s.entries[id].deleteAt != s.txns[t].start;
      }
    }
  }

  lemma StartTables(s: State)
    requires Shape(s) && TablesOk(s) && Shape(StartTxn(s))
    ensures TablesOk(StartTxn(s))
  {
    var s' := StartTxn(s);
    forall t: nat, id: nat | t < |s'.txns| && Live(s'.txns[t]) && Wrote(s'.txns[t].tables, id)
      ensures s'.entries[id].txn == Some(t)
    {
      assert s'.txns[t] == s.txns[t];
    }
  }

  lemma StartKeeps(s: State)
    requires Core(s)
    ensures Core(StartTxn(s))
  {
    var s' := StartTxn(s);
    StartShape(s);
    StartTime(s);
    StartQueue(s);
    StartStamps(s);
    StartTables(s);
    EntriesFrame(s, s');
    ChildrenFrame(s, s');
  }

  // ----- submit -----

  lemma SubmitKeeps(s: State, t: nat, request: Request)
    requires Core(s) && Running(s, t)
    ensures Core(Submit(s, t, request))
  {
    var s' := Submit(s, t, request);
    SubmitShape(s, t, request);
    TimeFrame(s, s');
    SubmitQueue(s, t, request);
    SubmitTables(s, t, request);
    EntriesFrame(s, s');
    StampsFrame(s, s');
    ChildrenFrame(s, s');
  }

  lemma SubmitShape(s: State, t: nat, request: Request)
    requires Shape(s) && t < |s.txns|
    ensures Shape(Submit(s, t, request)) && TxnsExtend(s, Submit(s, t, request))
  {
    var s' := Submit(s, t, request);
    forall u, id | 0 <= u < |s'.txns| && id in s'.txns[u].tables ensures id < |s'.entries| {
      assert id in s.txns[u].tables;
    }
  }

  lemma SubmitQueue(s: State, t: nat, request: Request)
    requires Shape(s) && QueueOk(s) && TimeOk(s) && Running(s, t) && Shape(Submit(s, t, request))
    ensures QueueOk(Submit(s, t, request))
  {
    var s' := Submit(s, t, request);
    assert TxnOk(s.txns[t], s.clock);
    SubmitOrder(s, s', t, request);
    forall u | 0 <= u < |s'.txns| && s'.txns[u].submitted && s'.txns[u].state.Active? ensures InReceived(s', u) {
      if u == t {
        assert s'.received[|s.received|].txn == t;
      } else {
        assert InReceived(s, u);
        var i :| 0 <= i < |s.received| && s.received[i].txn == u;
        assert s'.received[i].txn == u;
      }
    }
    forall u | 0 <= u < |s'.txns| && (s'.txns[u].state.Committing? || s'.txns[u].state.Rollbacking?) ensures InPrepared(s', u) {
      assert InPrepared(s, u);
    }
  }

  lemma SubmitOrder(s: State, s': State, t: nat, request: Request)
    requires Shape(s) && QueueOk(s) && Running(s, t) && s.txns[t].state.Active? && s' == Submit(s, t, request) && Shape(s')
    ensures forall i :: 0 <= i < |s'.received| ==>
              s'.txns[s'.received[i].txn].state.Active? && s'.txns[s'.received[i].txn].submitted
    ensures forall i, j :: 0 <= i < j < |s'.received| ==> s'.received[i].txn != s'.received[j].txn
  {
    assert forall i :: 0 <= i < |s.received| ==> s'.received[i] == s.received[i] && s.received[i].txn != t;
  }

  lemma SubmitTables(s: State, t: nat, request: Request)
    requires Shape(s) && TablesOk(s) && t < |s.txns| && Shape(Submit(s, t, request))
    ensures TablesOk(Submit(s, t, request))
  {
    var s' := Submit(s, t, request);
    forall u: nat, id: nat | u < |s'.txns| && Live(s'.txns[u]) && Wrote(s'.txns[u].tables, id)
      ensures s'.entries[id].txn == Some(u)
    {
      assert Live(s.txns[u]) && Wrote(s.txns[u].tables, id);
    }
  }
}
