/** The catalog and the transaction manager as the objects they are: fields updated in
    place, walks and loops, each method tied to the step it performs. */
module CatalogEngine {
  import opened Keys
  import opened Wire
  import opened Options
  import opened Sequences
  import opened Mvcc
  import opened MvccInvariant
  import opened MvccWrites
  import opened MvccPipeline
  import opened MvccRuns

  /** A name list after one node was taken out. */
  function RemoveFirst(versions: seq<nat>, id: nat): seq<nat> {
    if versions == [] then []
    else if versions[0] == id then versions[1..]
    else [versions[0]] + RemoveFirst(versions[1..], id)
  }

  /** The part of a transaction's table record that a loop has worked through. */
  ghost function DoneTables(tables: map<nat, TxnTable>, left: set<nat>): map<nat, TxnTable> {
    map id | id in tables && id !in left :: tables[id]
  }

  /** Unlisting one more created version is removing its node. */
  lemma {:induction false} UnlistOneMore(versions: seq<nat>, done: map<nat, TxnTable>, more: map<nat, TxnTable>, id: nat)
    requires Distinct(versions) && id !in done && id in more && more[id].created && more == done[id := more[id]]
    ensures Unlist(versions, more) == RemoveFirst(Unlist(versions, done), id)
  {
    if versions != [] {
      assert forall i :: 0 < i < |versions| ==> versions[i] == versions[1..][i - 1];
      UnlistOneMore(versions[1..], done, more, id);
      if versions[0] == id {
        UnlistAbsent(versions[1..], done, more, id);
      }
    }
  }

  lemma {:induction false} UnlistAbsent(versions: seq<nat>, done: map<nat, TxnTable>, more: map<nat, TxnTable>, id: nat)
    requires id !in versions && forall i :: i != id ==> (i in more <==> i in done) && (i in more ==> more[i] == done[i])
    ensures Unlist(versions, more) == Unlist(versions, done)
  {
    if versions != [] {
      UnlistAbsent(versions[1..], done, more, id);
    }
  }

  lemma {:induction false} UnlistNothing(versions: seq<nat>, tables: map<nat, TxnTable>)
    requires forall id :: id in versions && id in tables ==> !tables[id].created
    ensures Unlist(versions, tables) == versions
  {
    if versions != [] {
      UnlistNothing(versions[1..], tables);
    }
  }

  lemma {:induction false} RemoveAt(versions: seq<nat>, id: nat, i: nat)
    requires i <= |versions| && id !in versions[..i] && (i < |versions| ==> versions[i] == id)
    ensures RemoveFirst(versions, id) == versions[..i] + if i < |versions| then versions[i + 1..] else []
  {
    if i > 0 {
      assert versions[..i] == [versions[0]] + versions[1..][..i - 1];
      RemoveAt(versions[1..], id, i - 1);
    }
  }

  /** How far the undoing of a transaction's writes has come. */
  ghost predicate EntriesUnwound(es: seq<Entry>, was: seq<Entry>, tables: map<nat, TxnTable>, left: set<nat>) {
    && |es| == |was|
    && forall i :: 0 <= i < |was| ==> es[i] == if i in left then was[i] else UnwindEntry(was[i], i, tables)
  }

  ghost predicate NamesUnwound(names: map<string, seq<nat>>, was: map<string, seq<nat>>,
                               tables: map<nat, TxnTable>, left: set<nat>) {
    && names.Keys == was.Keys
    && forall name :: name in names ==> names[name] == Unlist(was[name], DoneTables(tables, left))
  }

  lemma NothingUnwound(names: map<string, seq<nat>>, tables: map<nat, TxnTable>)
    ensures NamesUnwound(names, names, tables, tables.Keys)
  {
    forall name | name in names ensures Unlist(names[name], DoneTables(tables, tables.Keys)) == names[name] {
      UnlistNothing(names[name], DoneTables(tables, tables.Keys));
    }
  }

  lemma AllUnwound(es: seq<Entry>, names: map<string, seq<nat>>, s: State, tables: map<nat, TxnTable>)
    requires EntriesUnwound(es, s.entries, tables, {}) && NamesUnwound(names, s.names, tables, {})
    ensures es == UnwindEntries(s.entries, tables)
    ensures names == map name | name in s.names :: Unlist(s.names[name], tables)
  {
    assert DoneTables(tables, {}) == tables;
  }

  /** Each list holds entries of its own name, once. */
  ghost predicate Separate(s: State) {
    && (forall name :: name in s.names ==> Distinct(s.names[name]))
    && (forall name, id :: name in s.names && id in s.names[name] ==> id < |s.entries| && s.entries[id].name == name)
    && (forall id :: 0 <= id < |s.entries| ==> s.entries[id].name in s.names)
  }

  lemma NamesSeparate(s: State)
    requires Shape(s) && NamesOk(s)
    ensures Separate(s)
  {
    forall name | name in s.names ensures Distinct(s.names[name]) {
      assert VersionsOk(s, name, s.names[name]);
    }
    forall name, id | name in s.names && id in s.names[name] ensures id < |s.entries| && s.entries[id].name == name {
      assert VersionsOk(s, name, s.names[name]);
    }
  }

  lemma UnwindNames(s: State, names: map<string, seq<nat>>, tables: map<nat, TxnTable>, left: set<nat>, id: nat)
    requires Separate(s) && id in left && left <= tables.Keys && id < |s.entries|
    requires NamesUnwound(names, s.names, tables, left)
    ensures s.entries[id].name in names
    ensures var own := s.entries[id].name;
            NamesUnwound(if tables[id].created then names[own := RemoveFirst(names[own], id)] else names,
                         s.names, tables, left - {id})
  {
    forall name | name in names
      ensures Unlist(s.names[name], DoneTables(tables, left - {id})) ==
              if tables[id].created && name == s.entries[id].name then RemoveFirst(names[name], id) else names[name]
    {
      UnwindList(s.names[name], tables, left, id, name == s.entries[id].name);
    }
  }

  lemma UnwindList(vs: seq<nat>, tables: map<nat, TxnTable>, left: set<nat>, id: nat, own: bool)
    requires Distinct(vs) && (id in vs ==> own) && id in left && left <= tables.Keys
    ensures Unlist(vs, DoneTables(tables, left - {id})) ==
            if tables[id].created && own then RemoveFirst(Unlist(vs, DoneTables(tables, left)), id)
            else Unlist(vs, DoneTables(tables, left))
  {
    var done, more := DoneTables(tables, left), DoneTables(tables, left - {id});
    assert more == done[id := tables[id]];
    if tables[id].created && own {
      UnlistOneMore(vs, done, more, id);
    } else if tables[id].created {
      UnlistAbsent(vs, done, more, id);
    } else {
      UnlistSame(vs, done, more);
    }
  }

  lemma {:induction false} UnlistSame(versions: seq<nat>, done: map<nat, TxnTable>, more: map<nat, TxnTable>)
    requires forall i :: (i in more && more[i].created) <==> (i in done && done[i].created)
    ensures Unlist(versions, more) == Unlist(versions, done)
  {
    if versions != [] {
      UnlistSame(versions[1..], done, more);
    }
  }

  /** One segment, or one block of the given segment, that the spill creates. */
  datatype SpillCreate = SpillCreate(table: nat, segment: Option<nat>)

  /** The catalog after a spill: one create after the other. */
  ghost function AfterSpill(s: State, t: nat, creates: seq<SpillCreate>): (s': State)
    requires Shape(s) && t < |s.txns|
    ensures Shape(s') && |s'.txns| == |s.txns|
  {
    if creates == [] then s else
      var z := |creates| - 1;
      var m := AfterSpill(s, t, creates[..z]);
      ChildShape(m, t, creates[z].table, creates[z].segment);
      CreateChild(m, t, creates[z].table, creates[z].segment)
  }

  lemma {:induction false} SpillKeeps(s: State, t: nat, creates: seq<SpillCreate>)
    requires Inv(s) && Acting(s, t)
    ensures var s' := AfterSpill(s, t, creates);
            Inv(s') && Acting(s', t) && s'.received == s.received && s'.clock == s.clock
  {
    if creates != [] {
      var z := |creates| - 1;
      SpillKeeps(s, t, creates[..z]);
      SpillGoesOn(AfterSpill(s, t, creates[..z]), t, creates[z].table, creates[z].segment);
    }
  }

  lemma AfterSpillNext(s: State, t: nat, creates: seq<SpillCreate>, i: nat)
    requires Shape(s) && t < |s.txns| && i < |creates|
    ensures AfterSpill(s, t, creates[..i + 1]) == CreateChild(AfterSpill(s, t, creates[..i]), t, creates[i].table, creates[i].segment)
  {
    assert creates[..i + 1][..i] == creates[..i];
  }

  /** Every step of the run makes the next of the segments and blocks. */
  ghost predicate Makes(states: seq<State>, t: nat, creates: seq<SpillCreate>) {
    && |states| == |creates| + 1
    && forall i {:trigger creates[i]} :: 0 <= i < |creates| ==>
         && Shape(states[i]) && t < |states[i].txns|
         && states[i + 1] == CreateChild(states[i], t, creates[i].table, creates[i].segment)
  }

  lemma RunMakes(states: seq<State>, evs: seq<Event>, t: nat, creates: seq<SpillCreate>)
    requires Run(states, evs) && |evs| == |creates| && forall i :: 0 <= i < |evs| ==> evs[i] == EvChild(t, creates[i].table, creates[i].segment)
    ensures Makes(states, t, creates)
  {
    forall i | 0 <= i < |creates|
      ensures Shape(states[i]) && t < |states[i].txns| && states[i + 1] == CreateChild(states[i], t, creates[i].table, creates[i].segment)
    {
      var ev := evs[i];
      assert Shape(states[i]) && Enabled(states[i], ev) && states[i + 1] == Step(states[i], ev);
      assert ev == EvChild(t, creates[i].table, creates[i].segment);
    }
  }

  lemma {:induction false} MakesSpill(states: seq<State>, t: nat, creates: seq<SpillCreate>, k: nat)
    requires Makes(states, t, creates) && Shape(states[0]) && t < |states[0].txns| && k <= |creates|
    ensures states[k] == AfterSpill(states[0], t, creates[..k])
  {
    if k > 0 {
      MakesSpill(states, t, creates, k - 1);
      MakesOne(states, t, creates, k - 1, creates[k - 1], AfterSpill(states[0], t, creates[..k - 1]));
      AfterSpillNext(states[0], t, creates, k - 1);
    }
  }

  lemma MakesOne(states: seq<State>, t: nat, creates: seq<SpillCreate>, k: nat, create: SpillCreate, m: State)
    requires Makes(states, t, creates) && k < |creates| && create == creates[k] && m == states[k]
    ensures Shape(m) && t < |m.txns| && states[k + 1] == CreateChild(m, t, create.table, create.segment)
  {
  }

  /** A run of creates, in their order, leads to the catalog after their spill. */
  lemma SpillIsRun(states: seq<State>, evs: seq<Event>, t: nat, creates: seq<SpillCreate>)
    requires Run(states, evs) && Shape(states[0]) && t < |states[0].txns| && |evs| == |creates|
    requires forall i :: 0 <= i < |evs| ==> evs[i] == EvChild(t, creates[i].table, creates[i].segment)
    ensures states[|evs|] == AfterSpill(states[0], t, creates)
  {
    RunMakes(states, evs, t, creates);
    MakesSpill(states, t, creates, |creates|);
    assert creates[..|creates|] == creates;
  }

  lemma SpillGoesOn(s: State, t: nat, table: nat, segment: Option<nat>)
    requires Inv(s) && Acting(s, t)
    ensures var s' := CreateChild(s, t, table, segment);
            Inv(s') && Acting(s', t) && s'.received == s.received && s'.clock == s.clock
  {
    StepKeeps(s, EvChild(t, table, segment));
  }

  class Engine {
    const db: nat
    var clock: nat
    var txns: seq<Txn>
    var entries: seq<Entry>
    var names: map<string, seq<nat>>
    var children: seq<Child>
    var received: seq<OpTxn>
    var prepared: seq<OpTxn>

    /** The state the steps of the model talk about. */
    ghost function View(): State
      reads this
    {
      State(db, clock, txns, entries, names, children, received, prepared)
    }

    ghost predicate Valid()
      reads this
    {
      Inv(View())
    }

    constructor (id: nat)
      requires id < UINT64
      ensures Valid() && View() == Init(id)
    {
      InitInv(id);
      db := id;
      clock, txns, entries, names, children, received, prepared := 0, [], [], map[], [], [], [];
      new;
      assert View() == Init(id);
    }

    method StartTxn() returns (t: nat)
      requires Valid()
      modifies this
      ensures Valid() && View() == Mvcc.StartTxn(old(View())) && t == old(|txns|)
    {
      StepKeeps(View(), EvStart);
      t := Register();
    }

    /** Allocates the transaction's number and its start timestamp. */
    method Register() returns (t: nat)
      modifies this
      ensures View() == Mvcc.StartTxn(old(View())) && t == old(|txns|)
    {
      t := |txns|;
      clock := clock + 1;
      txns := txns + [Txn(clock, None, Active, false, map[], {})];
    }

    /** The walk over the versions of a name. */
    method TxnGetTableNode(versions: seq<nat>, r: nat) returns (found: Option<nat>)
      requires Shape(View()) && r < |txns| && forall i :: 0 <= i < |versions| ==> versions[i] < |entries|
      ensures found == Walk(View(), r, versions)
    {
      found := None;
      var i := 0;
      while i < |versions|
        invariant 0 <= i <= |versions| && found.None?
        invariant Walk(View(), r, versions) == Walk(View(), r, versions[i..])
      {
        var verdict := Visit(versions[i], r);
        if verdict.Found? {
          return Some(versions[i]);
        } else if verdict.Stop? {
          return None;
        }
        i := i + 1;
      }
    }

    /** What the walk does at one entry. */
    method Visit(id: nat, r: nat) returns (v: Verdict)
      requires Shape(View()) && r < |txns| && id < |entries|
      ensures v == Examine(View(), r, id)
    {
      var e, start := entries[id], txns[r].start;
      if e.txn.Some? {
        if e.txn.value == r {
          return if e.op.SoftDelete? then Stop else Found;
        }
        if !e.HasCreated() && !e.HasDropped() {
          return Skip;
        }
        if e.CreateBefore(start) {
          if txns[e.txn.value].commit.None? {
            return Found;
          }
          if e.CreateAndDropInSameTxn() {
            return Skip;
          }
          if e.DeleteAfter(start) {
            return Found;
          }
          return if txns[e.txn.value].state.Rollbacked? then Found else Stop;
        }
      } else {
        if e.CreateAfter(start) {
          return Skip;
        } else if e.DeleteBefore(start) {
          return Stop;
        } else {
          return Found;
        }
      }
      v := Skip;
    }

    method GetTableEntry(name: string, r: nat) returns (found: Option<nat>)
      requires Shape(View()) && r < |txns|
      ensures found == Lookup(View(), r, name)
    {
      found := None;
      if name in names {
        found := TxnGetTableNode(names[name], r);
      }
    }

    /** Adds a new version of a table, or says why not. */
    method CreateTableEntry(t: nat, name: string) returns (r: Outcome)
      requires Valid() && Running(View(), t) && |entries| < UINT64 - 1
      modifies this
      ensures Valid() && r == MayCreate(old(View()), t, name) && View() == CreateTable(old(View()), t, name)
    {
      StepKeeps(View(), EvCreate(t, name));
      r := AddEntryLocked(t, name);
    }

    method AddEntryLocked(t: nat, name: string) returns (r: Outcome)
      requires Shape(View()) && t < |txns|
      modifies this
      ensures r == MayCreate(old(View()), t, name) && View() == CreateTable(old(View()), t, name)
    {
      if name in names {
        if names[name] == [] {
          return Panic;
        }
        var record := entries[names[name][0]];
        if record.txn.Some? && record.txn.value != t && txns[record.txn.value].commit.None? {
          return WriteConflict;
        }
        if record.txn.Some? {
          if !record.IsDroppedUncommitted() {
            return Duplicate;
          }
        } else if !record.HasDropped() {
          return Duplicate;
        }
      }
      var id := |entries|;
      entries := entries + [Entry(name, Some(t), Create, None, 0, 0)];
      names := names[name := [id] + if name in names then names[name] else []];
      var txn := txns[t];
      txns := txns[t := txn.(tables := txn.tables[id := TxnTable(true, false)], symbols := txn.symbols + {EncodeDB(db)})];
      r := Done;
    }

    method DropTableEntry(t: nat, name: string) returns (r: Outcome)
      requires Valid() && Running(View(), t)
      modifies this
      ensures Valid() && r == DropOutcome(old(View()), t, name) && View() == DropTable(old(View()), t, name)
    {
      StepKeeps(View(), EvDrop(t, name));
      r := DropEntryLocked(t, name);
    }

    method DropEntryLocked(t: nat, name: string) returns (r: Outcome)
      requires Shape(View()) && t < |txns|
      modifies this
      ensures r == DropOutcome(old(View()), t, name) && View() == DropTable(old(View()), t, name)
    {
      LookupInRange(View(), t, name);
      var found := GetTableEntry(name, t);
      if found.None? {
        return NotFound;
      }
      var id := found.value;
      var e := entries[id];
      if e.txn.None? {
        if e.HasDropped() {
          return NotFound;
        }
        if e.createAt > txns[t].start {
          return Panic;
        }
        entries := entries[id := e.(prev := Some(e.op), txn := Some(t), op := SoftDelete)];
      } else {
        if e.txn.value != t {
          return WriteConflict;
        }
        if e.op.SoftDelete? {
          return NotFound;
        }
        entries := entries[id := e.(op := SoftDelete)];
      }
      var txn := txns[t];
      var created := id in txn.tables && txn.tables[id].created;
      txns := txns[t := txn.(tables := txn.tables[id := TxnTable(created, true)], symbols := txn.symbols + {EncodeDB(db)})];
      r := Done;
    }

    /** Creates a segment, or a block of the given segment, and records the reads. */
    method CreateSegmentOrBlock(t: nat, table: nat, segment: Option<nat>) returns (r: Outcome)
      requires Valid() && Acting(View(), t)
      modifies this
      ensures Valid() && View() == CreateChild(old(View()), t, table, segment)
      ensures r.Done? <==> table < old(|entries|) && (segment.Some? ==> IsSegmentOf(old(View()), segment.value, table))
    {
      StepKeeps(View(), EvChild(t, table, segment));
      r := AddChild(t, table, segment);
    }

    method AddChild(t: nat, table: nat, segment: Option<nat>) returns (r: Outcome)
      requires t < |txns| && Shape(View())
      modifies this
      ensures View() == CreateChild(old(View()), t, table, segment)
      ensures r.Done? <==> table < old(|entries|) && (segment.Some? ==> IsSegmentOf(old(View()), segment.value, table))
    {
      if table >= |entries| {
        return NotFound;
      }
      var txn := txns[t];
      var keys := {EncodeDB(db), EncodeTable(db, table)};
      if segment.Some? {
        var seg := segment.value;
        if seg >= |children| || children[seg].table != table || children[seg].segment.Some? {
          return NotFound;
        }
        keys := keys + {EncodeSegment(db, table, seg)};
      }
      children := children + [Child(table, segment, Some(t), 0)];
      txns := txns[t := txn.(
        tables := if table in txn.tables then txn.tables else txn.tables[table := TxnTable(false, false)],
        symbols := txn.symbols + keys)];
      r := Done;
    }

    method SubmitOp(t: nat, request: Request)
      requires Valid() && Running(View(), t)
      modifies this
      ensures Valid() && View() == Submit(old(View()), t, request)
    {
      StepKeeps(View(), EvSubmit(t, request));
      Enqueue(t, request);
    }

    method Enqueue(t: nat, request: Request)
      requires t < |txns|
      modifies this
      ensures View() == Submit(old(View()), t, request)
    {
      txns := txns[t := txns[t].(submitted := true)];
      received := received + [OpTxn(t, request)];
    }

    // ----- the prepare queue -----

    /** The read check: does any recorded read collide with a drop stamped before ts? */
    method Check(t: nat, ts: nat) returns (conflict: bool)
      requires Shape(View()) && t < |txns|
      ensures conflict <==> CheckFails(View(), t, ts)
    {
      var left := txns[t].symbols;
      conflict := false;
      while left != {}
        invariant left <= txns[t].symbols && !conflict
        invariant forall key :: key in txns[t].symbols && key !in left ==> !Collides(View(), key, ts)
        decreases left
      {
        var key :| key in left;
        var k := Decode(key);
        if k.kind == KIND_TABLE && k.table < |entries| && entries[k.table].DeleteBefore(ts) {
          var e := entries[k.table];
          if e.txn.None? || txns[e.txn.value].commit.None? || !txns[e.txn.value].state.Rollbacked? {
            assert Collides(View(), key, ts);
            return true;
          }
        }
        left := left - {key};
      }
    }

    /** Stamps what a transaction wrote, table by table. */
    method StampTables(tables: map<nat, TxnTable>, ts: nat)
      requires forall id :: id in tables ==> id < |entries|
      modifies this`entries
      ensures entries == StampEntries(old(entries), tables, ts)
    {
      ghost var was := entries;
      var left := tables.Keys;
      while left != {}
        invariant left <= tables.Keys && |entries| == |was|
        invariant forall i :: 0 <= i < |was| ==>
                    entries[i] == if i in left then was[i] else StampEntry(was[i], i, tables, ts)
        decreases left
      {
        var id :| id in left;
        if !entries[id].CreateAndDropInSameTxn() {
          if tables[id].created {
            entries := entries[id := entries[id].PrepareCommit(ts)];
          } else if tables[id].dropped {
            entries := entries[id := entries[id].PrepareCommit(ts)];
          }
        }
        left := left - {id};
      }
    }

    method StampSegmentsAndBlocks(t: nat, ts: nat)
      requires forall c :: 0 <= c < |children| ==> children[c].table < |entries|
      modifies this`children
      ensures children == StampChildren(old(children), entries, t, ts)
    {
      ghost var was := children;
      for c := 0 to |children|
        invariant |children| == |was|
        invariant forall i :: 0 <= i < |was| ==>
                    children[i] == if i < c then StampChild(was[i], entries, t, ts) else was[i]
      {
        var child := children[c];
        if child.txn == Some(t) && !entries[child.table].CreateAndDropInSameTxn() && child.createAt == 0 {
          children := children[c := child.(createAt := ts)];
        }
      }
    }

    /** Takes the node of a rolled-back create out of its name list. */
    method DeleteNode(versions: seq<nat>, id: nat) returns (rest: seq<nat>)
      ensures rest == RemoveFirst(versions, id)
    {
      var i := 0;
      while i < |versions| && versions[i] != id
        invariant 0 <= i <= |versions| && id !in versions[..i]
      {
        i := i + 1;
      }
      RemoveAt(versions, id, i);
      rest := versions[..i] + if i < |versions| then versions[i + 1..] else [];
    }

    /** Undoes what a transaction did to one table. */
    method UnwindTable(tables: map<nat, TxnTable>, id: nat, ghost left: set<nat>, ghost s: State)
      requires id in left && left <= tables.Keys && id < |s.entries| && Separate(s)
      requires EntriesUnwound(entries, s.entries, tables, left) && NamesUnwound(names, s.names, tables, left)
      modifies this`entries, this`names
      ensures EntriesUnwound(entries, s.entries, tables, left - {id}) && NamesUnwound(names, s.names, tables, left - {id})
    {
      UnwindNames(s, names, tables, left, id);
      if tables[id].created {
        var name := entries[id].name;
        var rest := DeleteNode(names[name], id);
        names := names[name := rest];
      }
      if tables[id].created || tables[id].dropped {
        entries := entries[id := entries[id].PrepareRollback()];
      }
    }

    /** Undoes what a transaction wrote, table by table. */
    method UnwindTables(tables: map<nat, TxnTable>)
      requires Separate(View()) && forall id :: id in tables ==> id < |entries|
      modifies this`entries, this`names
      ensures entries == UnwindEntries(old(entries), tables)
      ensures names == map name | name in old(names) :: Unlist(old(names)[name], tables)
    {
      ghost var s := View();
      var left := tables.Keys;
      NothingUnwound(s.names, tables);
      while left != {}
        invariant left <= tables.Keys
        invariant EntriesUnwound(entries, s.entries, tables, left) && NamesUnwound(names, s.names, tables, left)
        decreases left
      {
        var id :| id in left;
        UnwindTable(tables, id, left, s);
        left := left - {id};
      }
      AllUnwound(entries, names, s, tables);
    }

    /** The spill of a transaction's rows before its commit: it creates segments and blocks. */
    method OnPreCommit(t: nat, creates: seq<SpillCreate>)
      requires Valid() && Acting(View(), t)
      modifies this
      ensures Valid() && View() == AfterSpill(old(View()), t, creates) && received == old(received)
    {
      ghost var s := View();
      for i := 0 to |creates|
        invariant View() == AfterSpill(s, t, creates[..i])
      {
        AfterSpillNext(s, t, creates, i);
        SpillOne(t, creates[i], AfterSpill(s, t, creates[..i]));
      }
      assert creates[..|creates|] == creates;
      SpillKeeps(s, t, creates);
    }

    method SpillOne(t: nat, create: SpillCreate, ghost s: State)
      requires View() == s && Shape(s) && t < |s.txns|
      modifies this
      ensures View() == CreateChild(s, t, create.table, create.segment)
    {
      var _ := AddChild(t, create.table, create.segment);
    }

    /** Takes the oldest request off the queue: a commit spills its rows, the request gets a
        timestamp, and its writes are stamped or unwound. A commit whose read check fails is
        turned into a rollback. */
    method OnPreparing(creates: seq<SpillCreate>)
      requires Valid() && received != []
      modifies this
      ensures Valid()
      ensures View() == Prepare(if old(received)[0].request.Commit? then AfterSpill(old(View()), old(received)[0].txn, creates) else old(View()))
    {
      var op := received[0];
      assert NextUp(View(), op.txn);
      if op.request.Commit? {
        OnPreCommit(op.txn, creates);
      }
      PrepareFirst();
    }

    method PrepareFirst()
      requires Valid() && received != []
      modifies this
      ensures Valid() && View() == Prepare(old(View()))
    {
      var op := received[0];
      assert NextUp(View(), op.txn);
      StepKeeps(View(), EvPrepare);
      var conflict := false;
      if op.request.Commit? {
        conflict := Check(op.txn, clock + 1);
      }
      if op.request.Commit? && !conflict {
        OnPrepareCommit(op.txn);
      } else {
        NamesSeparate(View());
        OnPrepareRollback(op.txn);
      }
    }

    method OnPrepareCommit(t: nat)
      requires Shape(View()) && t < |txns| && received != []
      modifies this
      ensures View() == PrepareCommit(old(View()), t)
    {
      clock := clock + 1;
      StampSegmentsAndBlocks(t, clock);
      StampTables(txns[t].tables, clock);
      txns := txns[t := txns[t].ToCommitting(clock)];
      received := received[1..];
      prepared := prepared + [OpTxn(t, Commit)];
    }

    method OnPrepareRollback(t: nat)
      requires Shape(View()) && Separate(View()) && t < |txns| && received != []
      modifies this
      ensures View() == PrepareRollback(old(View()), t)
    {
      UnwindTables(txns[t].tables);
      clock := clock + 1;
      var committing := if received[0].request.Commit? then txns[t].ToCommitting(clock) else txns[t];
      txns := txns[t := committing.ToRollbacking(clock)];
      received := received[1..];
      prepared := prepared + [OpTxn(t, Rollback)];
    }

    // ----- the commit queue -----

    method SettleTables(tables: map<nat, TxnTable>)
      requires forall id :: id in tables ==> id < |entries|
      modifies this`entries
      ensures entries == SettleEntries(old(entries), tables)
    {
      ghost var was := entries;
      var left := tables.Keys;
      while left != {}
        invariant left <= tables.Keys && |entries| == |was|
        invariant forall i :: 0 <= i < |was| ==>
                    entries[i] == if i in left then was[i] else SettleEntry(was[i], i, tables)
        decreases left
      {
        var id :| id in left;
        if !entries[id].CreateAndDropInSameTxn() {
          if tables[id].created {
            entries := entries[id := entries[id].ApplyCommit()];
          } else if tables[id].dropped {
            entries := entries[id := entries[id].ApplyCommit()];
          }
        }
        left := left - {id};
      }
    }

    method SettleSegmentsAndBlocks(t: nat)
      requires forall c :: 0 <= c < |children| ==> children[c].table < |entries|
      modifies this`children
      ensures children == SettleChildren(old(children), entries, t)
    {
      ghost var was := children;
      for c := 0 to |children|
        invariant |children| == |was|
        invariant forall i :: 0 <= i < |was| ==>
                    children[i] == if i < c then SettleChild(was[i], entries, t) else was[i]
      {
        var child := children[c];
        if child.txn == Some(t) && !entries[child.table].CreateAndDropInSameTxn() {
          children := children[c := child.(txn := None)];
        }
      }
    }

    /** Makes the oldest prepared transaction final. */
    method OnCommit()
      requires Valid() && prepared != []
      modifies this
      ensures Valid() && View() == Apply(old(View()))
    {
      StepKeeps(View(), EvApply);
      ApplyNext();
    }

    method ApplyNext()
      requires Shape(View()) && prepared != []
      modifies this
      ensures View() == Apply(old(View()))
    {
      var op := prepared[0];
      if op.request.Commit? {
        SettleSegmentsAndBlocks(op.txn);
        SettleTables(txns[op.txn].tables);
      }
      txns := txns[op.txn := txns[op.txn].Finish()];
      prepared := prepared[1..];
    }
  }
}
