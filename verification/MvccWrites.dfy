/** The operations a running transaction issues keep the invariant. */
module MvccWrites {
  import opened Options
  import opened Mvcc
  import opened MvccInvariant

  // ----- segments and blocks -----

  lemma ChildShape(s: State, t: nat, table: nat, segment: Option<nat>)
    requires Shape(s) && t < |s.txns|
    ensures Shape(CreateChild(s, t, table, segment)) && TxnsExtend(s, CreateChild(s, t, table, segment))
    ensures SameStanding(s, CreateChild(s, t, table, segment))
  {
    var s' := CreateChild(s, t, table, segment);
    forall u, id | 0 <= u < |s'.txns| && id in s'.txns[u].tables ensures id < |s'.entries| {
      assert id in s.txns[u].tables || id == table;
    }
  }

  lemma ChildTables(s: State, t: nat, table: nat, segment: Option<nat>)
    requires Shape(s) && TablesOk(s) && t < |s.txns| && Shape(CreateChild(s, t, table, segment))
    ensures TablesOk(CreateChild(s, t, table, segment))
  {
    var s' := CreateChild(s, t, table, segment);
    forall u: nat, id: nat | u < |s'.txns| && Live(s'.txns[u]) && Wrote(s'.txns[u].tables, id)
      ensures s'.entries[id].txn == Some(u)
    {
      assert Live(s.txns[u]) && Wrote(s.txns[u].tables, id);
    }
  }

  lemma ChildChildren(s: State, t: nat, table: nat, segment: Option<nat>)
    requires Shape(s) && ChildrenOk(s) && t < |s.txns|
    requires Shape(CreateChild(s, t, table, segment)) && TxnsExtend(s, CreateChild(s, t, table, segment))
    ensures ChildrenOk(CreateChild(s, t, table, segment))
  {
    var s' := CreateChild(s, t, table, segment);
    forall i | 0 <= i < |s'.children| ensures ChildOk(s', s'.children[i]) {
      if i < |s.children| {
        ChildFrame(s, s', s.children[i]);
      }
    }
  }

  lemma ChildKeeps(s: State, t: nat, table: nat, segment: Option<nat>)
    requires Core(s) && Acting(s, t)
    ensures Core(CreateChild(s, t, table, segment))
  {
    ChildShape(s, t, table, segment);
    ChildTables(s, t, table, segment);
    ChildChildren(s, t, table, segment);
    UnchangedKeeps(s, CreateChild(s, t, table, segment));
  }

  // ----- creating a table -----

  lemma CreateShape(s: State, t: nat, name: string)
    requires Shape(s) && t < |s.txns| && MayCreate(s, t, name).Done?
    ensures Shape(CreateTable(s, t, name)) && TxnsExtend(s, CreateTable(s, t, name))
    ensures SameStanding(s, CreateTable(s, t, name))
  {
    var s' := CreateTable(s, t, name);
    forall u, id | 0 <= u < |s'.txns| && id in s'.txns[u].tables ensures id < |s'.entries| {
      assert id in s.txns[u].tables || id == |s.entries|;
    }
    assert forall id :: id in s.txns[t].tables ==> id != |s.entries|;
    forall n, i | n in s'.names && 0 <= i < |s'.names[n]| ensures s'.names[n][i] < |s'.entries| {
      if n in s.names {
        assert n != name ==> s'.names[n] == s.names[n];
        assert n == name && i > 0 ==> s'.names[n][i] == s.names[n][i - 1];
      }
    }
  }

  lemma CreateLists(s: State, t: nat, name: string, id: nat)
    requires Shape(s) && t < |s.txns| && MayCreate(s, t, name).Done? && id < |s.entries|
    ensures Listed(CreateTable(s, t, name), id) <==> Listed(s, id)
  {
    var s' := CreateTable(s, t, name);
    assert s'.entries[id] == s.entries[id];
  }

  lemma CreateEntries(s: State, t: nat, name: string)
    requires Shape(s) && EntriesOk(s) && t < |s.txns| && s.txns[t].state.Active? && MayCreate(s, t, name).Done?
    requires Shape(CreateTable(s, t, name)) && TxnsExtend(s, CreateTable(s, t, name))
    ensures EntriesOk(CreateTable(s, t, name))
  {
    var s' := CreateTable(s, t, name);
    forall id | 0 <= id < |s'.entries| ensures EntryOk(s', id) {
      if id < |s.entries| {
        CreateLists(s, t, name, id);
        EntryFrame(s, s', id);
      } else {
        assert s'.names[name][0] == id;
      }
    }
  }

  lemma CreateTables(s: State, t: nat, name: string)
    requires Shape(s) && TablesOk(s) && t < |s.txns| && MayCreate(s, t, name).Done? && Shape(CreateTable(s, t, name))
    ensures TablesOk(CreateTable(s, t, name))
  {
    var s' := CreateTable(s, t, name);
    forall u: nat, id: nat | u < |s'.txns| && Live(s'.txns[u]) && Wrote(s'.txns[u].tables, id)
      ensures s'.entries[id].txn == Some(u)
    {
      if id < |s.entries| {
        assert Live(s.txns[u]) && Wrote(s.txns[u].tables, id);
      } else {
        assert id !in s.txns[u].tables;
      }
    }
  }

  /** The version a create puts on top comes after every version below it. */
  lemma CreateOnTop(s: State, t: nat, name: string)
    requires Shape(s) && TimeOk(s) && EntriesOk(s) && NamesOk(s) && t < |s.txns| && s.txns[t].state.Active?
    requires MayCreate(s, t, name).Done? && name in s.names
    requires Shape(CreateTable(s, t, name)) && TxnsExtend(s, CreateTable(s, t, name))
    ensures var s' := CreateTable(s, t, name);
            forall j :: 0 <= j < |s.names[name]| ==>
              Precedes(s'.txns, s'.entries[s.names[name][j]], s'.entries[|s.entries|])
  {
    var s', vs := CreateTable(s, t, name), s.names[name];
    forall j | 0 <= j < |vs| ensures Precedes(s'.txns, s'.entries[vs[j]], s'.entries[|s.entries|]) {
      assert VersionsOk(s, name, vs);
      assert EntryOk(s, vs[0]) && Listed(s, vs[0]);
      assert s.entries[vs[0]].txn.Some? ==> TxnOk(s.txns[s.entries[vs[0]].txn.value], s.clock);
      if j > 0 {
        assert Precedes(s.txns, s.entries[vs[j]], s.entries[vs[0]]);
      }
    }
  }

  lemma CreateNames(s: State, t: nat, name: string)
    requires Shape(s) && TimeOk(s) && EntriesOk(s) && NamesOk(s) && t < |s.txns| && s.txns[t].state.Active?
    requires MayCreate(s, t, name).Done?
    requires Shape(CreateTable(s, t, name)) && TxnsExtend(s, CreateTable(s, t, name))
    ensures NamesOk(CreateTable(s, t, name))
  {
    var s' := CreateTable(s, t, name);
    assert s.entries <= s'.entries;
    forall n | n in s'.names ensures VersionsOk(s', n, s'.names[n]) {
      if n in s.names {
        VersionsFrame(s, s', n, s.names[n]);
      }
      if n == name {
        CreateVersions(s, t, name);
      }
    }
    CreateNamed(s, t, name);
  }

  lemma CreateVersions(s: State, t: nat, name: string)
    requires Shape(s) && TimeOk(s) && EntriesOk(s) && NamesOk(s) && t < |s.txns| && s.txns[t].state.Active?
    requires MayCreate(s, t, name).Done?
    requires Shape(CreateTable(s, t, name)) && TxnsExtend(s, CreateTable(s, t, name))
    ensures VersionsOk(CreateTable(s, t, name), name, CreateTable(s, t, name).names[name])
  {
    var s', id := CreateTable(s, t, name), |s.entries|;
    var vs := if name in s.names then s.names[name] else [];
    if name in s.names {
      VersionsFrame(s, s', name, vs);
      CreateOnTop(s, t, name);
      assert forall j :: 0 <= j < |vs| ==> vs[j] != id;
    }
    OnTop(s', name, id, vs);
  }

  lemma CreateNamed(s: State, t: nat, name: string)
    requires Shape(s) && NamesOk(s) && t < |s.txns| && MayCreate(s, t, name).Done?
    ensures var s' := CreateTable(s, t, name);
            forall n :: n in s'.names ==> exists id :: 0 <= id < |s'.entries| && s'.entries[id].name == n
  {
    var s' := CreateTable(s, t, name);
    forall n | n in s'.names ensures exists id :: 0 <= id < |s'.entries| && s'.entries[id].name == n {
      if n == name {
        assert s'.entries[|s.entries|].name == n;
      } else {
        var id :| 0 <= id < |s.entries| && s.entries[id].name == n;
        assert s'.entries[id].name == n;
      }
    }
  }

  lemma CreateKeeps(s: State, t: nat, name: string)
    requires Core(s) && Enabled(s, EvCreate(t, name))
    ensures Core(CreateTable(s, t, name))
  {
    if MayCreate(s, t, name).Done? {
      var s' := CreateTable(s, t, name);
      assert TxnOk(s.txns[t], s.clock);
      CreateShape(s, t, name);
      CreateEntries(s, t, name);
      CreateTables(s, t, name);
      CreateNames(s, t, name);
      TimeFrame(s, s');
      QueueFrame(s, s');
      CreateStamps(s, t, name);
      ChildrenFrame(s, s');
    }
  }

  lemma CreateStamps(s: State, t: nat, name: string)
    requires Shape(s) && StampsOk(s) && TimeOk(s) && t < |s.txns| && MayCreate(s, t, name).Done?
    ensures StampsOk(CreateTable(s, t, name))
  {
    StampsFrame(s, CreateTable(s, t, name));
  }

  // ----- dropping a table -----

  /** The table a drop may mark: not dropped yet, and committed or created by the same
      transaction. */
  ghost predicate Droppable(s: State, t: nat, id: nat)
    requires t < |s.txns| && id < |s.entries|
  {
    var e, tables := s.entries[id], s.txns[t].tables;
    && e.deleteAt == 0 && e.op.Create?
    && (e.txn.None? ==> e.createAt != 0 && !(id in tables && tables[id].created))
    && (e.txn.Some? ==> e.txn.value == t && e.createAt == 0 && e.prev.None? && id in tables && tables[id].created)
  }

  /** What a drop does. */
  ghost predicate Drops(s: State, s': State, t: nat, id: nat) {
    && t < |s.txns| && id < |s.entries| && s.txns[t].state.Active? && Droppable(s, t, id)
    && s'.entries == s.entries[id := Dropped(s.entries[id], t)] && s'.names == s.names && s'.children == s.children
    && s'.db == s.db && s'.clock == s.clock && s'.received == s.received && s'.prepared == s.prepared
    && |s'.txns| == |s.txns| && (forall u :: 0 <= u < |s.txns| && u != t ==> s'.txns[u] == s.txns[u])
    && s'.txns[t] == s.txns[t].(tables := s.txns[t].tables[id := TxnTable(s.entries[id].txn.Some?, true)], symbols := s'.txns[t].symbols)
    && s.txns[t].symbols <= s'.txns[t].symbols
  }

  /** The entry a drop marks: visible, not dropped yet, and on the list of its name. */
  lemma DropTarget(s: State, t: nat, name: string) returns (id: nat)
    requires Shape(s) && EntriesOk(s) && TablesOk(s) && NamesOk(s) && t < |s.txns| && s.txns[t].state.Active?
    requires DropOutcome(s, t, name).Done?
    ensures id < |s.entries| && Lookup(s, t, name) == Some(id) && Listed(s, id) && Droppable(s, t, id)
  {
    LookupInRange(s, t, name);
    id := Lookup(s, t, name).value;
    assert VersionsOk(s, name, s.names[name]);
    assert Listed(s, id) && EntryOk(s, id);
    if id in s.txns[t].tables && s.txns[t].tables[id].created {
      assert Live(s.txns[t]) && Wrote(s.txns[t].tables, id);
    }
  }

  lemma DropIsDrop(s: State, t: nat, name: string, id: nat)
    requires Shape(s) && t < |s.txns| && s.txns[t].state.Active? && DropOutcome(s, t, name).Done?
    requires id < |s.entries| && Lookup(s, t, name) == Some(id) && Droppable(s, t, id)
    ensures Drops(s, DropTable(s, t, name), t, id)
  {
  }

  lemma DropShape(s: State, s': State, t: nat, id: nat)
    requires Shape(s) && Drops(s, s', t, id)
    ensures Shape(s') && SameStanding(s, s')
  {
    forall u, i | 0 <= u < |s'.txns| && i in s'.txns[u].tables ensures i < |s'.entries| {
      assert i in s.txns[u].tables || i == id;
    }
  }

  lemma DropEntries(s: State, s': State, t: nat, id: nat)
    requires Shape(s) && Shape(s') && EntriesOk(s) && Drops(s, s', t, id) && Listed(s, id)
    ensures EntriesOk(s')
  {
    forall i | 0 <= i < |s'.entries| ensures EntryOk(s', i) {
      assert EntryOk(s, i) && EntryOk(s, id);
      assert Listed(s', i) <==> Listed(s, i);
    }
  }

  lemma DropTables(s: State, s': State, t: nat, id: nat)
    requires Shape(s) && Shape(s') && TablesOk(s) && Drops(s, s', t, id)
    ensures TablesOk(s')
  {
    forall u: nat, i: nat | u < |s'.txns| && Live(s'.txns[u]) && Wrote(s'.txns[u].tables, i)
      ensures s'.entries[i].txn == Some(u)
    {
      if u != t || i != id {
        assert Live(s.txns[u]) && Wrote(s.txns[u].tables, i);
      }
    }
  }

  lemma DropVersions(s: State, s': State, t: nat, id: nat, n: string, vs: seq<nat>)
    requires Shape(s) && Shape(s') && VersionsOk(s, n, vs) && Drops(s, s', t, id)
    ensures VersionsOk(s', n, vs)
  {
    forall i, j | 0 <= i < j < |vs| ensures Precedes(s'.txns, s'.entries[vs[j]], s'.entries[vs[i]]) {
      assert Precedes(s.txns, s.entries[vs[j]], s.entries[vs[i]]);
    }
  }

  lemma DropNames(s: State, s': State, t: nat, id: nat)
    requires Shape(s) && Shape(s') && NamesOk(s) && Drops(s, s', t, id)
    ensures NamesOk(s')
  {
    forall n | n in s'.names ensures VersionsOk(s', n, s'.names[n]) {
      DropVersions(s, s', t, id, n, s.names[n]);
    }
    SameNames(s, s');
  }

  lemma DropChildren(s: State, s': State, t: nat, id: nat)
    requires Shape(s) && Shape(s') && ChildrenOk(s) && Drops(s, s', t, id)
    ensures ChildrenOk(s')
  {
    forall i | 0 <= i < |s'.children| ensures ChildOk(s', s'.children[i]) {
      assert ChildOk(s, s.children[i]);
    }
  }

  lemma DropsKeeps(s: State, s': State, t: nat, id: nat)
    requires Core(s) && Drops(s, s', t, id) && Listed(s, id)
    ensures Core(s')
  {
    DropShape(s, s', t, id);
    TimeFrame(s, s');
    QueueFrame(s, s');
    StampsFrame(s, s');
    DropEntries(s, s', t, id);
    DropTables(s, s', t, id);
    DropNames(s, s', t, id);
    DropChildren(s, s', t, id);
  }

  lemma DropKeeps(s: State, t: nat, name: string)
    requires Core(s) && Running(s, t)
    ensures Core(DropTable(s, t, name))
  {
    if DropOutcome(s, t, name).Done? {
      assert TxnOk(s.txns[t], s.clock);
      var id := DropTarget(s, t, name);
      DropIsDrop(s, t, name, id);
      DropsKeeps(s, DropTable(s, t, name), t, id);
    }
  }
}
