/** The two halves of a prepare. The pipeline gives a transaction its timestamp in one lock
    section and stamps or unwinds what it wrote in later ones. The other modules take both as
    one step; here others act in between, and as long as they keep away from the names that the
    transaction wrote, it is as if they acted afterwards. */
module MvccHalves {
  import opened Options
  import Keys
  import opened Mvcc
  import opened MvccInvariant
  import opened MvccWrites
  import opened MvccPipeline
  import opened MvccRuns

  // ----- the two halves of a prepare -----

  /** The oldest request gets its timestamp. */
  function Take(s: State): State
    requires Shape(s) && s.received != []
  {
    var op, ts := s.received[0], s.clock + 1;
    s.(clock := ts, received := s.received[1..],
       txns := s.txns[op.txn := if op.request.Commit? then s.txns[op.txn].ToCommitting(ts) else s.txns[op.txn].ToRollbacking(ts)])
  }

  predicate Timed(s: State, t: nat) {
    t < |s.txns| && s.txns[t].commit.Some?
  }

  function Stamped(s: State, t: nat): State
    requires Shape(s) && Timed(s, t)
  {
    var ts := s.txns[t].commit.value;
    s.(entries := StampEntries(s.entries, s.txns[t].tables, ts),
       children := StampChildren(s.children, s.entries, t, ts),
       prepared := s.prepared + [OpTxn(t, Commit)])
  }

  function UnwindNames(names: map<string, seq<nat>>, tables: map<nat, TxnTable>): map<string, seq<nat>> {
    map name | name in names :: Unlist(names[name], tables)
  }

  function Unwound(s: State, t: nat): State
    requires Shape(s) && Timed(s, t)
  {
    var tables := s.txns[t].tables;
    s.(txns := s.txns[t := s.txns[t].ToRollbacking(s.txns[t].commit.value)],
       entries := UnwindEntries(s.entries, tables),
       names := UnwindNames(s.names, tables),
       prepared := s.prepared + [OpTxn(t, Rollback)])
  }

  /** Everything it wrote is stamped, or unwound if it asked for that or fails the check. */
  ghost function Finish(s: State, op: OpTxn): State
    requires Shape(s) && Timed(s, op.txn)
  {
    if op.request.Commit? && !CheckFails(s, op.txn, s.txns[op.txn].commit.value) then Stamped(s, op.txn) else Unwound(s, op.txn)
  }

  lemma TakeShape(s: State)
    requires Shape(s) && TimeOk(s) && QueueOk(s) && s.received != []
    ensures Shape(Take(s)) && Timed(Take(s), s.received[0].txn) && Moves(s, Take(s), s.received[0].txn)
    ensures Take(s).txns[s.received[0].txn].commit == Some(s.clock + 1)
    ensures Take(s).txns[s.received[0].txn].state == StateOf(s.received[0].request)
  {
    var t, s' := s.received[0].txn, Take(s);
    assert NextUp(s, t) && TxnOk(s.txns[t], s.clock);
    forall u, id | 0 <= u < |s'.txns| && id in s'.txns[u].tables ensures id < |s'.entries| {
      assert id in s.txns[u].tables;
    }
    forall i | 0 <= i < |s'.received| ensures s'.received[i].txn < |s'.txns| {
      assert s'.received[i] == s.received[i + 1];
    }
  }

  /** A timestamp does not change what the check says. */
  lemma CheckInGap(s: State)
    requires Shape(s) && TimeOk(s) && QueueOk(s) && s.received != [] && Shape(Take(s))
    ensures CheckFails(Take(s), s.received[0].txn, s.clock + 1) <==> CheckFails(s, s.received[0].txn, s.clock + 1)
  {
    TakeShape(s);
    var t, ts := s.received[0].txn, s.clock + 1;
    assert s.txns[t].state.Active? && TxnOk(s.txns[t], s.clock);
    forall key ensures Collides(Take(s), key, ts) <==> Collides(s, key, ts) {
    }
  }

  /** With nothing in between the two halves are the prepare of the other modules. */
  lemma HalvesArePrepare(s: State)
    requires Shape(s) && TimeOk(s) && QueueOk(s) && s.received != []
    ensures Shape(Take(s)) && Timed(Take(s), s.received[0].txn) && Finish(Take(s), s.received[0]) == Prepare(s)
  {
    TakeShape(s);
    CheckInGap(s);
    assert NextUp(s, s.received[0].txn) && TxnOk(s.txns[s.received[0].txn], s.clock);
  }

  lemma FinishShape(s: State, op: OpTxn)
    requires Shape(s) && Timed(s, op.txn)
    ensures Shape(Finish(s, op)) && |Finish(s, op).txns| == |s.txns| && Finish(s, op).clock == s.clock
    ensures forall u :: 0 <= u < |s.txns| && u != op.txn ==> Finish(s, op).txns[u] == s.txns[u]
    ensures Finish(s, op).received == s.received
  {
    UnwoundShape(s, op.txn);
    StampedShape(s, op.txn);
  }

  lemma StampedShape(s: State, t: nat)
    requires Shape(s) && Timed(s, t)
    ensures Shape(Stamped(s, t))
  {
    var s', ts := Stamped(s, t), s.txns[t].commit.value;
    forall id | 0 <= id < |s'.entries| && s'.entries[id].txn.Some? ensures s'.entries[id].txn.value < |s'.txns| {
      assert s'.entries[id] == StampEntry(s.entries[id], id, s.txns[t].tables, ts);
    }
    forall c | 0 <= c < |s'.children| ensures s'.children[c].table < |s'.entries| {
      assert s'.children[c] == StampChild(s.children[c], s.entries, t, ts);
    }
  }

  lemma UnwoundShape(s: State, t: nat)
    requires Shape(s) && Timed(s, t)
    ensures Shape(Unwound(s, t))
  {
    var s', tables := Unwound(s, t), s.txns[t].tables;
    forall id | 0 <= id < |s'.entries| && s'.entries[id].txn.Some? ensures s'.entries[id].txn.value < |s'.txns| {
      assert s'.entries[id] == UnwindEntry(s.entries[id], id, tables);
    }
    forall name, i | name in s'.names && 0 <= i < |s'.names[name]| ensures s'.names[name][i] < |s'.entries| {
      UnlistMembers(s.names[name], tables);
      assert s'.names[name][i] in s.names[name];
    }
    forall u, id | 0 <= u < |s'.txns| && id in s'.txns[u].tables ensures id < |s'.entries| {
      assert id in s.txns[u].tables;
    }
  }

  // ----- others act in between -----

  /** What holds of the catalog while t has its timestamp and no stamps: its records and its
      marks agree, and so do those of the prepared commits; nobody else who is on the way back
      has marks. */
  ghost predicate Midway(s: State, t: nat) {
    && Shape(s) && Timed(s, t) && s.txns[t].submitted && !s.txns[t].state.Active?
    && (forall u {:trigger s.txns[u]} :: 0 <= u < |s.txns| ==>
          (!s.txns[u].submitted ==> s.txns[u].state.Active?) && (s.txns[u].state.Active? ==> s.txns[u].commit.None?))
    && (forall id {:trigger s.entries[id].txn} :: 0 <= id < |s.entries| ==> MarkOk(s, t, id))
    && (forall i {:trigger s.prepared[i].txn} :: 0 <= i < |s.prepared| ==> PreparedOk(s, t, s.prepared[i]))
    && (forall i, j {:trigger s.prepared[i].txn, s.prepared[j].txn} :: 0 <= i < j < |s.prepared| ==> s.prepared[i].txn != s.prepared[j].txn)
  }

  ghost predicate MarkOk(s: State, t: nat, id: nat)
    requires Shape(s) && Timed(s, t) && id < |s.entries|
  {
    && (Wrote(s.txns[t].tables, id) <==> s.entries[id].txn == Some(t))
    && (s.entries[id].txn == Some(t) ==>
          && id in s.txns[t].tables && (s.txns[t].tables[id].created <==> s.entries[id].createAt == 0)
          && s.entries[id].createAt < s.txns[t].commit.value && s.entries[id].deleteAt == 0)
    && (s.entries[id].txn.Some? && s.entries[id].txn != Some(t) ==> !s.txns[s.entries[id].txn.value].state.Rollbacking?)
  }

  ghost predicate PreparedOk(s: State, t: nat, op: OpTxn) {
    && op.txn < |s.txns| && op.txn != t && s.txns[op.txn].submitted && s.txns[op.txn].commit.Some?
    && s.txns[op.txn].state == StateOf(op.request)
    && (op.request.Commit? ==> forall id {:trigger s.entries[id].txn} :: 0 <= id < |s.entries| && Wrote(s.txns[op.txn].tables, id) ==>
          s.entries[id].txn == Some(op.txn))
  }

  lemma TakeMidway(s: State)
    requires Inv(s) && s.received != []
    ensures Midway(Take(s), s.received[0].txn)
  {
    var t, s' := s.received[0].txn, Take(s);
    TakeShape(s);
    assert NextUp(s, t);
    forall u | 0 <= u < |s'.txns|
      ensures (!s'.txns[u].submitted ==> s'.txns[u].state.Active?) && (s'.txns[u].state.Active? ==> s'.txns[u].commit.None?)
    {
      assert TxnOk(s.txns[u], s.clock);
    }
    forall id | 0 <= id < |s'.entries| ensures MarkOk(s', t, id) {
      assert EntryOk(s, id);
      MarkIsRecord(s, t, id);
    }
    forall i | 0 <= i < |s'.prepared| ensures PreparedOk(s', t, s'.prepared[i]) {
      PreparedStays(s, i);
    }
  }

  lemma PreparedStays(s: State, i: nat)
    requires Inv(s) && s.received != [] && i < |s.prepared|
    ensures PreparedOk(Take(s), s.received[0].txn, s.prepared[i])
  {
    var op := s.prepared[i];
    TakeShape(s);
    assert NextUp(s, s.received[0].txn);
    assert TxnOk(s.txns[op.txn], s.clock) && s.txns[op.txn].state == StateOf(op.request);
  }

  /** The step keeps away from what t wrote: it creates or drops only under names of which t
      has written no version, and it applies somebody who made nothing under a table that t
      created. */
  ghost predicate Elsewhere(s: State, ev: Event, t: nat)
    requires Shape(s) && t < |s.txns|
  {
    match ev
    case EvCreate(_, name) => Untouched(s, name, t)
    case EvDrop(_, name) => Untouched(s, name, t)
    case EvPrepare => false
    case EvApply =>
      && s.prepared != []
      && forall c {:trigger s.children[c].table} :: 0 <= c < |s.children| && s.children[c].txn == Some(s.prepared[0].txn) ==>
           !(s.children[c].table in s.txns[t].tables && s.txns[t].tables[s.children[c].table].created)
    case _ => true
  }

  ghost predicate Untouched(s: State, name: string, t: nat)
    requires t < |s.txns|
  {
    name in s.names ==> forall i {:trigger s.names[name][i]} :: 0 <= i < |s.names[name]| ==> !Wrote(s.txns[t].tables, s.names[name][i])
  }

  /** The step does the same before and after the second half. */
  ghost predicate Commutes(s: State, ev: Event, t: nat)
    requires Shape(s) && Timed(s, t) && Enabled(s, ev)
  {
    var s', ts := Step(s, ev), s.txns[t].commit.value;
    && Shape(s') && Timed(s', t) && s'.txns[t].commit.value == ts
    && (CheckFails(s', t, ts) <==> CheckFails(s, t, ts))
    && Shape(Stamped(s, t)) && Enabled(Stamped(s, t), ev) && Stamped(s', t) == Step(Stamped(s, t), ev)
    && Shape(Unwound(s, t)) && Enabled(Unwound(s, t), ev) && Unwound(s', t) == Step(Unwound(s, t), ev)
  }

  /** The check asks about deleted entries and the standing of their writers. */
  lemma CheckKeeps(s: State, s': State, t: nat, ts: nat)
    requires Shape(s) && Shape(s') && t < |s.txns| <= |s'.txns| && s'.txns[t].symbols == s.txns[t].symbols && s.entries <= s'.entries
    requires forall u :: 0 <= u < |s.txns| ==> s'.txns[u].commit == s.txns[u].commit && s'.txns[u].state == s.txns[u].state
    requires forall id :: |s.entries| <= id < |s'.entries| ==> s'.entries[id].deleteAt == 0
    ensures CheckFails(s', t, ts) <==> CheckFails(s, t, ts)
  {
    forall key ensures Collides(s, key, ts) <==> Collides(s', key, ts) {
      var k := Keys.Decode(key);
      if k.kind == Keys.KIND_TABLE && k.table < |s.entries| {
        assert s'.entries[k.table] == s.entries[k.table];
      }
    }
  }

  lemma StartCommutes(s: State, t: nat)
    requires Midway(s, t)
    ensures Commutes(s, EvStart, t)
  {
    StartShape(s);
    CheckKeeps(s, StartTxn(s), t, s.txns[t].commit.value);
    StampedShape(s, t);
    UnwoundShape(s, t);
    StartHalves(s, t);
  }

  lemma StartHalves(s: State, t: nat)
    requires Shape(s) && Timed(s, t) && Shape(StartTxn(s))
    ensures Stamped(StartTxn(s), t) == StartTxn(Stamped(s, t)) && Unwound(StartTxn(s), t) == StartTxn(Unwound(s, t))
  {
    assert Unwound(StartTxn(s), t).txns == StartTxn(Unwound(s, t)).txns;
  }

  lemma SubmitCommutes(s: State, u: nat, request: Request, t: nat)
    requires Midway(s, t) && Running(s, u)
    ensures Commutes(s, EvSubmit(u, request), t)
  {
    SubmitShape(s, u, request);
    CheckKeeps(s, Submit(s, u, request), t, s.txns[t].commit.value);
    StampedShape(s, t);
    UnwoundShape(s, t);
    SubmitHalves(s, u, request, t);
  }

  lemma SubmitHalves(s: State, u: nat, request: Request, t: nat)
    requires Shape(s) && Timed(s, t) && u < |s.txns| && u != t && Shape(Submit(s, u, request))
    ensures Stamped(Submit(s, u, request), t) == Submit(Stamped(s, t), u, request)
    ensures Unwound(Submit(s, u, request), t) == Submit(Unwound(s, t), u, request)
  {
    assert Unwound(Submit(s, u, request), t).txns == Submit(Unwound(s, t), u, request).txns;
  }

  // ----- segments and blocks -----

  lemma ChildCommutes(s: State, u: nat, table: nat, segment: Option<nat>, t: nat)
    requires Midway(s, t) && Acting(s, u)
    ensures Commutes(s, EvChild(u, table, segment), t)
  {
    ChildShape(s, u, table, segment);
    ChildCheck(s, u, table, segment, t);
    StampedShape(s, t);
    UnwoundShape(s, t);
    ChildStamped(s, u, table, segment, t);
    ChildUnwound(s, u, table, segment, t);
  }

  lemma ChildCheck(s: State, u: nat, table: nat, segment: Option<nat>, t: nat)
    requires Shape(s) && Timed(s, t) && u < |s.txns| && u != t && Shape(CreateChild(s, u, table, segment))
    ensures CreateChild(s, u, table, segment).txns[t] == s.txns[t]
    ensures CheckFails(CreateChild(s, u, table, segment), t, s.txns[t].commit.value) <==> CheckFails(s, t, s.txns[t].commit.value)
  {
    CheckKeeps(s, CreateChild(s, u, table, segment), t, s.txns[t].commit.value);
  }

  lemma ChildStamped(s: State, u: nat, table: nat, segment: Option<nat>, t: nat)
    requires Shape(s) && Timed(s, t) && u < |s.txns| && u != t && Shape(CreateChild(s, u, table, segment)) && Shape(Stamped(s, t))
    ensures Stamped(CreateChild(s, u, table, segment), t) == CreateChild(Stamped(s, t), u, table, segment)
  {
    SegmentStays(s, t, table, segment);
    if table < |s.entries| {
      ChildStamps(s, u, table, segment, t);
    }
  }

  lemma ChildUnwound(s: State, u: nat, table: nat, segment: Option<nat>, t: nat)
    requires Shape(s) && Timed(s, t) && u < |s.txns| && u != t && Shape(CreateChild(s, u, table, segment)) && Shape(Unwound(s, t))
    ensures Unwound(CreateChild(s, u, table, segment), t) == CreateChild(Unwound(s, t), u, table, segment)
  {
    SegmentStays(s, t, table, segment);
    var a, b := Unwound(CreateChild(s, u, table, segment), t), CreateChild(Unwound(s, t), u, table, segment);
    assert a.txns == b.txns;
  }

  lemma SegmentStays(s: State, t: nat, table: nat, segment: Option<nat>)
    requires Shape(s) && Timed(s, t)
    ensures segment.Some? ==> (IsSegmentOf(Stamped(s, t), segment.value, table) <==> IsSegmentOf(s, segment.value, table))
    ensures Unwound(s, t).children == s.children && |Unwound(s, t).entries| == |s.entries| == |Stamped(s, t).entries|
  {
    var ts := s.txns[t].commit.value;
    if segment.Some? && segment.value < |s.children| {
      assert Stamped(s, t).children[segment.value] == StampChild(s.children[segment.value], s.entries, t, ts);
    }
  }

  lemma ChildStamps(s: State, u: nat, table: nat, segment: Option<nat>, t: nat)
    requires Shape(s) && Timed(s, t) && u < |s.txns| && u != t && table < |s.entries|
    ensures var c, ts := Child(table, segment, Some(u), 0), s.txns[t].commit.value;
            StampChildren(s.children + [c], s.entries, t, ts) == StampChildren(s.children, s.entries, t, ts) + [c]
  {
  }

  // ----- applying somebody else -----

  lemma ApplyCommutes(s: State, t: nat)
    requires Midway(s, t) && Elsewhere(s, EvApply, t)
    ensures Commutes(s, EvApply, t)
  {
    assert PreparedOk(s, t, s.prepared[0]);
    MidwayApplyShape(s, t);
    StampedShape(s, t);
    UnwoundShape(s, t);
    ApplyCheck(s, t);
    ApplyStamped(s, t);
    ApplyUnwound(s, t);
  }

  lemma MidwayApplyShape(s: State, t: nat)
    requires Midway(s, t) && s.prepared != []
    ensures Shape(Apply(s)) && Apply(s).txns[t] == s.txns[t]
  {
    var s' := Apply(s);
    assert PreparedOk(s, t, s.prepared[0]);
    forall u, id | 0 <= u < |s'.txns| && id in s'.txns[u].tables ensures id < |s'.entries| {
      assert id in s.txns[u].tables;
    }
    forall i | 0 <= i < |s'.prepared| ensures s'.prepared[i].txn < |s'.txns| {
      assert s'.prepared[i] == s.prepared[i + 1];
    }
  }

  lemma ApplyCheck(s: State, t: nat)
    requires Midway(s, t) && s.prepared != [] && Shape(Apply(s)) && Apply(s).txns[t] == s.txns[t]
    ensures CheckFails(Apply(s), t, s.txns[t].commit.value) <==> CheckFails(s, t, s.txns[t].commit.value)
  {
    assert PreparedOk(s, t, s.prepared[0]);
    var ts := s.txns[t].commit.value;
    forall key ensures Collides(s, key, ts) <==> Collides(Apply(s), key, ts) {
      var k := Keys.Decode(key);
      if k.kind == Keys.KIND_TABLE && k.table < |s.entries| {
        assert MarkOk(s, t, k.table);
      }
    }
  }

  lemma ApplyStamped(s: State, t: nat)
    requires Midway(s, t) && Elsewhere(s, EvApply, t) && Shape(Apply(s)) && Shape(Stamped(s, t)) && Apply(s).txns[t] == s.txns[t]
    ensures Stamped(Apply(s), t) == Apply(Stamped(s, t))
  {
    var a, b, op := Stamped(Apply(s), t), Apply(Stamped(s, t)), s.prepared[0];
    assert PreparedOk(s, t, op);
    assert a.prepared == b.prepared;
    if op.request.Commit? {
      forall id | 0 <= id < |s.entries| ensures a.entries[id] == b.entries[id] {
        assert MarkOk(s, t, id);
      }
      forall c | 0 <= c < |s.children| ensures a.children[c] == b.children[c] {
        ApplyChild(s, t, c);
      }
    }
  }

  lemma ApplyChild(s: State, t: nat, c: nat)
    requires Midway(s, t) && Elsewhere(s, EvApply, t) && c < |s.children| && s.prepared[0].request.Commit? && s.prepared[0].txn != t
    ensures var v, ts := s.prepared[0].txn, s.txns[t].commit.value;
            var child, tables := s.children[c], s.txns[t].tables;
            StampChild(SettleChild(child, s.entries, v), SettleEntries(s.entries, s.txns[v].tables), t, ts) ==
              SettleChild(StampChild(child, s.entries, t, ts), StampEntries(s.entries, tables, ts), v)
  {
    var id, v, ts := s.children[c].table, s.prepared[0].txn, s.txns[t].commit.value;
    assert MarkOk(s, t, id);
    assert StampEntries(s.entries, s.txns[t].tables, ts)[id] == StampEntry(s.entries[id], id, s.txns[t].tables, ts);
    assert SettleEntries(s.entries, s.txns[v].tables)[id] == SettleEntry(s.entries[id], id, s.txns[v].tables);
  }

  lemma ApplyUnwound(s: State, t: nat)
    requires Midway(s, t) && s.prepared != [] && Shape(Apply(s)) && Shape(Unwound(s, t)) && Apply(s).txns[t] == s.txns[t]
    ensures Unwound(Apply(s), t) == Apply(Unwound(s, t))
  {
    var a, b, op := Unwound(Apply(s), t), Apply(Unwound(s, t)), s.prepared[0];
    assert PreparedOk(s, t, op);
    assert a.prepared == b.prepared;
    assert a.txns == b.txns;
    if op.request.Commit? {
      forall id | 0 <= id < |s.entries| ensures a.entries[id] == b.entries[id] {
        assert MarkOk(s, t, id);
      }
    }
  }

  // ----- creating a table -----

  lemma {:induction false} UnlistNone(versions: seq<nat>, tables: map<nat, TxnTable>)
    requires forall i :: 0 <= i < |versions| ==> !Wrote(tables, versions[i])
    ensures Unlist(versions, tables) == versions
  {
    if versions != [] {
      UnlistNone(versions[1..], tables);
    }
  }

  /** The second half leaves the name and its versions alone. */
  lemma NameStays(s: State, name: string, t: nat)
    requires Midway(s, t) && Untouched(s, name, t)
    ensures name in Unwound(s, t).names <==> name in s.names
    ensures name in s.names ==> Unwound(s, t).names[name] == s.names[name]
    ensures name in s.names ==> forall i :: 0 <= i < |s.names[name]| ==>
              var id := s.names[name][i];
              && Stamped(s, t).entries[id] == s.entries[id] == Unwound(s, t).entries[id]
              && s.entries[id].txn != Some(t)
  {
    var tables, ts := s.txns[t].tables, s.txns[t].commit.value;
    if name in s.names {
      UnlistNone(s.names[name], tables);
      forall i | 0 <= i < |s.names[name]|
        ensures var id := s.names[name][i];
                && Stamped(s, t).entries[id] == s.entries[id] == Unwound(s, t).entries[id]
                && s.entries[id].txn != Some(t)
      {
        var id := s.names[name][i];
        assert MarkOk(s, t, id) && !Wrote(tables, id);
        assert Stamped(s, t).entries[id] == StampEntry(s.entries[id], id, tables, ts);
        assert Unwound(s, t).entries[id] == UnwindEntry(s.entries[id], id, tables);
      }
    }
  }

  lemma MayCreateStays(s: State, u: nat, name: string, t: nat)
    requires Midway(s, t) && Untouched(s, name, t) && u < |s.txns| && u != t && Shape(Stamped(s, t)) && Shape(Unwound(s, t))
    ensures MayCreate(Stamped(s, t), u, name) == MayCreate(s, u, name) == MayCreate(Unwound(s, t), u, name)
  {
    NameStays(s, name, t);
  }

  lemma CreateCommutes(s: State, u: nat, name: string, t: nat)
    requires Midway(s, t) && Enabled(s, EvCreate(u, name)) && Untouched(s, name, t)
    ensures Commutes(s, EvCreate(u, name), t)
  {
    StampedShape(s, t);
    UnwoundShape(s, t);
    MayCreateStays(s, u, name, t);
    if MayCreate(s, u, name).Done? {
      CreateDone(s, u, name, t);
    }
  }

  lemma CreateDone(s: State, u: nat, name: string, t: nat)
    requires Midway(s, t) && Enabled(s, EvCreate(u, name)) && Untouched(s, name, t) && Shape(Stamped(s, t)) && Shape(Unwound(s, t))
    requires MayCreate(Stamped(s, t), u, name) == MayCreate(s, u, name) == MayCreate(Unwound(s, t), u, name) == Done
    ensures Commutes(s, EvCreate(u, name), t)
  {
    CreateShape(s, u, name);
    CreateCheck(s, u, name, t);
    CreateStamped(s, u, name, t);
    CreateUnwound(s, u, name, t);
  }

  lemma CreateCheck(s: State, u: nat, name: string, t: nat)
    requires Shape(s) && Timed(s, t) && u < |s.txns| && u != t && MayCreate(s, u, name).Done? && Shape(CreateTable(s, u, name))
    ensures CreateTable(s, u, name).txns[t] == s.txns[t]
    ensures CheckFails(CreateTable(s, u, name), t, s.txns[t].commit.value) <==> CheckFails(s, t, s.txns[t].commit.value)
  {
    CheckKeeps(s, CreateTable(s, u, name), t, s.txns[t].commit.value);
  }

  lemma CreateStamped(s: State, u: nat, name: string, t: nat)
    requires Midway(s, t) && u < |s.txns| && u != t && MayCreate(s, u, name).Done? && Shape(CreateTable(s, u, name)) && Shape(Stamped(s, t))
    requires MayCreate(Stamped(s, t), u, name).Done?
    ensures Stamped(CreateTable(s, u, name), t) == CreateTable(Stamped(s, t), u, name)
  {
    var a, b := Stamped(CreateTable(s, u, name), t), CreateTable(Stamped(s, t), u, name);
    assert |s.entries| !in s.txns[t].tables;
    assert a.entries == b.entries;
    assert a.children == b.children;
  }

  lemma CreateUnwound(s: State, u: nat, name: string, t: nat)
    requires Midway(s, t) && Untouched(s, name, t) && u < |s.txns| && u != t && MayCreate(s, u, name).Done?
    requires Shape(CreateTable(s, u, name)) && Shape(Unwound(s, t)) && MayCreate(Unwound(s, t), u, name).Done?
    ensures Unwound(CreateTable(s, u, name), t) == CreateTable(Unwound(s, t), u, name)
  {
    var a, b := Unwound(CreateTable(s, u, name), t), CreateTable(Unwound(s, t), u, name);
    assert |s.entries| !in s.txns[t].tables;
    EntryUnwound(s.entries, Entry(name, Some(u), Create, None, 0, 0), s.txns[t].tables);
    assert a.txns == b.txns;
    if name in s.names {
      UnlistNone(s.names[name], s.txns[t].tables);
    }
    NamesUnwound(s.names, name, |s.entries|, s.txns[t].tables);
  }

  lemma EntryUnwound(es: seq<Entry>, e: Entry, tables: map<nat, TxnTable>)
    requires |es| !in tables
    ensures UnwindEntries(es + [e], tables) == UnwindEntries(es, tables) + [e]
  {
  }

  /** The new version on top of a name that is left alone. */
  lemma NamesUnwound(names: map<string, seq<nat>>, name: string, id: nat, tables: map<nat, TxnTable>)
    requires id !in tables && (name in names ==> Unlist(names[name], tables) == names[name])
    ensures var below := if name in names then names[name] else [];
            UnwindNames(names[name := [id] + below], tables) == UnwindNames(names, tables)[name := [id] + below]
  {
    var below := if name in names then names[name] else [];
    assert ([id] + below)[1..] == below;
    assert Unlist([id] + below, tables) == [id] + Unlist(below, tables);
  }

  // ----- dropping a table -----

  lemma {:induction false} WalkStays(s: State, s': State, r: nat, versions: seq<nat>)
    requires Shape(s) && Shape(s') && r < |s.txns| && r < |s'.txns|
    requires forall i :: 0 <= i < |versions| ==> versions[i] < |s.entries| && versions[i] < |s'.entries| && Examine(s', r, versions[i]) == Examine(s, r, versions[i])
    ensures Walk(s', r, versions) == Walk(s, r, versions)
  {
    if versions != [] {
      WalkStays(s, s', r, versions[1..]);
    }
  }

  lemma LookupStays(s: State, u: nat, name: string, t: nat)
    requires Midway(s, t) && Untouched(s, name, t) && u < |s.txns| && u != t && Shape(Stamped(s, t)) && Shape(Unwound(s, t))
    ensures Lookup(Stamped(s, t), u, name) == Lookup(s, u, name) == Lookup(Unwound(s, t), u, name)
  {
    NameStays(s, name, t);
    if name in s.names {
      LookupSame(s, Stamped(s, t), u, name, t);
      LookupSame(s, Unwound(s, t), u, name, t);
    }
  }

  /** What a lookup finds depends on the versions of the name and on who is on them. */
  lemma LookupSame(s: State, s': State, r: nat, name: string, t: nat)
    requires Shape(s) && Shape(s') && r < |s.txns| == |s'.txns| && r != t && |s'.entries| == |s.entries|
    requires forall u :: 0 <= u < |s.txns| && u != t ==> s'.txns[u] == s.txns[u]
    requires name in s.names && name in s'.names && s'.names[name] == s.names[name]
    requires forall i :: 0 <= i < |s.names[name]| ==>
               s'.entries[s.names[name][i]] == s.entries[s.names[name][i]] && s.entries[s.names[name][i]].txn != Some(t)
    ensures Lookup(s', r, name) == Lookup(s, r, name)
  {
    forall i | 0 <= i < |s.names[name]| ensures Examine(s', r, s.names[name][i]) == Examine(s, r, s.names[name][i]) {
    }
    WalkStays(s, s', r, s.names[name]);
  }

  lemma DropCommutes(s: State, u: nat, name: string, t: nat)
    requires Midway(s, t) && Running(s, u) && Untouched(s, name, t)
    ensures Commutes(s, EvDrop(u, name), t)
  {
    StampedShape(s, t);
    UnwoundShape(s, t);
    LookupStays(s, u, name, t);
    LookupInRange(s, u, name);
    if Lookup(s, u, name).Some? {
      TargetStays(s, u, name, t);
      if DropOutcome(s, u, name).Done? {
        DropDone(s, u, name, t);
      }
    }
  }

  lemma DropDone(s: State, u: nat, name: string, t: nat)
    requires Midway(s, t) && Running(s, u) && DropOutcome(s, u, name).Done? && Shape(Stamped(s, t)) && Shape(Unwound(s, t))
    requires Lookup(Stamped(s, t), u, name) == Lookup(s, u, name) == Lookup(Unwound(s, t), u, name)
    requires var id := Lookup(s, u, name).value;
             && id < |s.entries| && !Wrote(s.txns[t].tables, id)
             && Stamped(s, t).entries[id] == s.entries[id] == Unwound(s, t).entries[id]
    ensures Commutes(s, EvDrop(u, name), t)
  {
    DropShapeOnly(s, u, name);
    DropCheck(s, u, name, t);
    DropStamped(s, u, name, t);
    DropUnwound(s, u, name, t);
  }

  /** The version found is not one of t's. */
  lemma TargetStays(s: State, u: nat, name: string, t: nat)
    requires Midway(s, t) && Untouched(s, name, t) && u < |s.txns| && Lookup(s, u, name).Some?
    ensures var id := Lookup(s, u, name).value;
            && id < |s.entries| && !Wrote(s.txns[t].tables, id)
            && Stamped(s, t).entries[id] == s.entries[id] == Unwound(s, t).entries[id]
  {
    LookupInRange(s, u, name);
    var id := Lookup(s, u, name).value;
    var i :| 0 <= i < |s.names[name]| && s.names[name][i] == id;
    NameStays(s, name, t);
  }

  lemma DropShapeOnly(s: State, u: nat, name: string)
    requires Shape(s) && u < |s.txns| && DropOutcome(s, u, name).Done?
    ensures Shape(DropTable(s, u, name))
  {
    LookupInRange(s, u, name);
    var s' := DropTable(s, u, name);
    forall v, i | 0 <= v < |s'.txns| && i in s'.txns[v].tables ensures i < |s'.entries| {
      assert i in s.txns[v].tables || i == Lookup(s, u, name).value;
    }
  }

  lemma DropCheck(s: State, u: nat, name: string, t: nat)
    requires Midway(s, t) && Running(s, u) && DropOutcome(s, u, name).Done? && Shape(DropTable(s, u, name))
    ensures DropTable(s, u, name).txns[t] == s.txns[t]
    ensures CheckFails(DropTable(s, u, name), t, s.txns[t].commit.value) <==> CheckFails(s, t, s.txns[t].commit.value)
  {
    LookupInRange(s, u, name);
    var s', ts := DropTable(s, u, name), s.txns[t].commit.value;
    forall key ensures Collides(s, key, ts) <==> Collides(s', key, ts) {
    }
  }

  lemma DropStamped(s: State, u: nat, name: string, t: nat)
    requires Midway(s, t) && Running(s, u) && DropOutcome(s, u, name).Done? && Shape(DropTable(s, u, name)) && Shape(Stamped(s, t))
    requires Lookup(Stamped(s, t), u, name) == Lookup(s, u, name)
    requires var id := Lookup(s, u, name).value;
             id < |s.entries| && !Wrote(s.txns[t].tables, id) && Stamped(s, t).entries[id] == s.entries[id]
    ensures Stamped(DropTable(s, u, name), t) == DropTable(Stamped(s, t), u, name)
  {
    var a, b := Stamped(DropTable(s, u, name), t), DropTable(Stamped(s, t), u, name);
    assert a.entries == b.entries;
    assert a.children == b.children;
  }

  lemma DropUnwound(s: State, u: nat, name: string, t: nat)
    requires Midway(s, t) && Running(s, u) && DropOutcome(s, u, name).Done? && Shape(DropTable(s, u, name)) && Shape(Unwound(s, t))
    requires Lookup(Unwound(s, t), u, name) == Lookup(s, u, name)
    requires var id := Lookup(s, u, name).value;
             id < |s.entries| && !Wrote(s.txns[t].tables, id) && Unwound(s, t).entries[id] == s.entries[id]
    ensures Unwound(DropTable(s, u, name), t) == DropTable(Unwound(s, t), u, name)
  {
    var a, b := Unwound(DropTable(s, u, name), t), DropTable(Unwound(s, t), u, name);
    assert a.entries == b.entries;
    assert a.txns == b.txns;
    assert a.names == b.names;
  }

  // ----- any number of steps in between -----

  lemma StepCommutes(s: State, ev: Event, t: nat)
    requires Midway(s, t) && Enabled(s, ev) && Elsewhere(s, ev, t)
    ensures Commutes(s, ev, t)
  {
    match ev
    case EvStart => StartCommutes(s, t);
    case EvCreate(u, name) => CreateCommutes(s, u, name, t);
    case EvDrop(u, name) => DropCommutes(s, u, name, t);
    case EvChild(u, table, segment) => ChildCommutes(s, u, table, segment, t);
    case EvSubmit(u, request) => SubmitCommutes(s, u, request, t);
    case EvApply => ApplyCommutes(s, t);
  }

  lemma StepMidway(s: State, ev: Event, t: nat)
    requires Midway(s, t) && Enabled(s, ev) && Elsewhere(s, ev, t) && Shape(Step(s, ev))
    ensures Midway(Step(s, ev), t)
  {
    if ev.EvDrop? {
      DropStepMidway(s, ev.t, ev.name, t);
    } else if ev.EvApply? {
      ApplyMidway(s, t);
    } else {
      StepIsQuiet(s, ev, t);
      QuietMidway(s, Step(s, ev), t);
    }
  }

  lemma StepIsQuiet(s: State, ev: Event, t: nat)
    requires Midway(s, t) && Enabled(s, ev) && (ev.EvStart? || ev.EvCreate? || ev.EvChild? || ev.EvSubmit?)
    ensures Quietly(s, Step(s, ev))
  {
  }

  lemma DropStepMidway(s: State, u: nat, name: string, t: nat)
    requires Midway(s, t) && Running(s, u) && Untouched(s, name, t) && Shape(DropTable(s, u, name))
    ensures Midway(DropTable(s, u, name), t)
  {
    LookupInRange(s, u, name);
    if DropOutcome(s, u, name).Done? {
      TargetStays(s, u, name, t);
      DropMidway(s, DropTable(s, u, name), u, Lookup(s, u, name).value, t);
    }
  }

  /** Running transactions may record more, transactions and entries may be added. */
  ghost predicate Quietly(s: State, s': State) {
    && |s.txns| <= |s'.txns| && s.entries <= s'.entries && s'.prepared == s.prepared
    && (forall u {:trigger s'.txns[u]} :: 0 <= u < |s.txns| && s.txns[u].commit.Some? ==> s'.txns[u] == s.txns[u])
    && (forall u {:trigger s'.txns[u]} :: 0 <= u < |s.txns| ==>
          && s'.txns[u].state == s.txns[u].state && s'.txns[u].commit == s.txns[u].commit
          && (s.txns[u].submitted ==> s'.txns[u].submitted))
    && (forall u {:trigger s'.txns[u]} :: |s.txns| <= u < |s'.txns| ==> s'.txns[u].state.Active? && s'.txns[u].commit.None?)
    && (forall id {:trigger s'.entries[id]} :: |s.entries| <= id < |s'.entries| ==>
          s'.entries[id].txn.Some? && s'.entries[id].txn.value < |s.txns| && s.txns[s'.entries[id].txn.value].state.Active?)
  }

  lemma QuietMidway(s: State, s': State, t: nat)
    requires Midway(s, t) && Shape(s') && Quietly(s, s')
    ensures Midway(s', t)
  {
    forall id | 0 <= id < |s'.entries| ensures MarkOk(s', t, id) {
      if id < |s.entries| {
        assert MarkOk(s, t, id) && s'.entries[id] == s.entries[id];
      } else {
        assert id !in s.txns[t].tables;
      }
    }
    forall i | 0 <= i < |s'.prepared| ensures PreparedOk(s', t, s'.prepared[i]) {
      QuietPrepared(s, s', t, i);
    }
  }

  lemma QuietPrepared(s: State, s': State, t: nat, i: nat)
    requires Midway(s, t) && Shape(s') && Quietly(s, s') && i < |s.prepared|
    ensures PreparedOk(s', t, s.prepared[i])
  {
    var v := s.prepared[i].txn;
    assert PreparedOk(s, t, s.prepared[i]);
    forall id | 0 <= id < |s'.entries| && s.prepared[i].request.Commit? && Wrote(s'.txns[v].tables, id) ensures s'.entries[id].txn == Some(v) {
      assert id in s.txns[v].tables && s'.entries[id] == s.entries[id] && s.entries[id].txn == Some(v);
    }
  }

  lemma DropMidway(s: State, s': State, u: nat, id: nat, t: nat)
    requires Midway(s, t) && Running(s, u) && id < |s.entries| && !Wrote(s.txns[t].tables, id) && Shape(s')
    requires s'.entries == s.entries[id := Dropped(s.entries[id], u)] && s'.prepared == s.prepared
    requires MayDrop(s.entries[id], u, s.txns[u].start).Done?
    requires |s'.txns| == |s.txns| && (forall v :: 0 <= v < |s.txns| && v != u ==> s'.txns[v] == s.txns[v])
    requires s'.txns[u].commit == s.txns[u].commit && s'.txns[u].state == s.txns[u].state
    ensures Midway(s', t)
  {
    forall i | 0 <= i < |s'.entries| ensures MarkOk(s', t, i) {
      assert MarkOk(s, t, i);
    }
    forall i | 0 <= i < |s'.prepared| ensures PreparedOk(s', t, s'.prepared[i]) {
      assert PreparedOk(s, t, s.prepared[i]);
    }
  }

  lemma ApplyMidway(s: State, t: nat)
    requires Midway(s, t) && s.prepared != [] && Shape(Apply(s))
    ensures Midway(Apply(s), t)
  {
    var s', op := Apply(s), s.prepared[0];
    assert PreparedOk(s, t, op);
    forall id | 0 <= id < |s'.entries| ensures MarkOk(s', t, id) {
      assert MarkOk(s, t, id);
    }
    forall i | 0 <= i < |s'.prepared| ensures PreparedOk(s', t, s'.prepared[i]) {
      ApplyPrepared(s, t, i);
    }
    forall i, j | 0 <= i < j < |s'.prepared| ensures s'.prepared[i].txn != s'.prepared[j].txn {
      assert s'.prepared[i] == s.prepared[i + 1] && s'.prepared[j] == s.prepared[j + 1];
    }
  }

  lemma ApplyPrepared(s: State, t: nat, i: nat)
    requires Midway(s, t) && i + 1 < |s.prepared| && Shape(Apply(s))
    ensures PreparedOk(Apply(s), t, Apply(s).prepared[i])
  {
    var s', op := Apply(s), s.prepared[i + 1];
    assert PreparedOk(s, t, s.prepared[0]) && PreparedOk(s, t, op);
    assert s'.prepared[i] == op && s.prepared[0].txn != op.txn;
  }

  /** A run of steps that keep away from what t wrote. */
  ghost predicate AllElsewhere(states: seq<State>, evs: seq<Event>, t: nat) {
    && Run(states, evs)
    && forall i {:trigger evs[i]} :: 0 <= i < |evs| ==> Timed(states[i], t) && Elsewhere(states[i], evs[i], t)
  }

  lemma FinishCommutes(s: State, ev: Event, op: OpTxn)
    requires Midway(s, op.txn) && Enabled(s, ev) && Commutes(s, ev, op.txn)
    ensures Shape(Finish(s, op)) && Enabled(Finish(s, op), ev)
    ensures Shape(Step(s, ev)) && Timed(Step(s, ev), op.txn) && Finish(Step(s, ev), op) == Step(Finish(s, op), ev)
  {
  }

  lemma {:induction false} GapSoFar(op: OpTxn, states: seq<State>, evs: seq<Event>, k: nat) returns (states': seq<State>)
    requires AllElsewhere(states, evs, op.txn) && Midway(states[0], op.txn) && k <= |evs|
    ensures Midway(states[k], op.txn) && Run(states', evs[..k])
    ensures states'[0] == Finish(states[0], op) && states'[k] == Finish(states[k], op)
  {
    if k == 0 {
      states' := [Finish(states[0], op)];
    } else {
      states' := GapSoFar(op, states, evs, k - 1);
      var s, ev := states[k - 1], evs[k - 1];
      GapGoesOn(s, ev, op);
      Longer(states', evs, k, Finish(Step(s, ev), op));
      states' := states' + [Finish(Step(s, ev), op)];
    }
  }

  lemma Longer(states: seq<State>, evs: seq<Event>, k: nat, s: State)
    requires 0 < k <= |evs| && Run(states, evs[..k - 1]) && Shape(states[k - 1]) && Enabled(states[k - 1], evs[k - 1])
    requires s == Step(states[k - 1], evs[k - 1])
    ensures Run(states + [s], evs[..k])
  {
    Extend(states, evs[..k - 1], evs[k - 1]);
    assert evs[..k] == evs[..k - 1] + [evs[k - 1]];
  }

  lemma GapGoesOn(s: State, ev: Event, op: OpTxn)
    requires Midway(s, op.txn) && Enabled(s, ev) && Elsewhere(s, ev, op.txn)
    ensures Midway(Step(s, ev), op.txn)
    ensures Shape(Finish(s, op)) && Enabled(Finish(s, op), ev) && Finish(Step(s, ev), op) == Step(Finish(s, op), ev)
  {
    StepCommutes(s, ev, op.txn);
    StepMidway(s, ev, op.txn);
    FinishCommutes(s, ev, op);
  }

  /** Reduction: whatever others do between the two halves, as long as they keep away from what
      the transaction wrote, comes to the same as doing it after the whole prepare. */
  lemma GapIsHarmless(s: State, states: seq<State>, evs: seq<Event>) returns (states': seq<State>)
    requires Inv(s) && s.received != [] && AllElsewhere(states, evs, s.received[0].txn) && states[0] == Take(s)
    ensures Run(states', evs) && states'[0] == Prepare(s)
    ensures Shape(states[|evs|]) && Timed(states[|evs|], s.received[0].txn) && states'[|evs|] == Finish(states[|evs|], s.received[0])
  {
    TakeMidway(s);
    HalvesArePrepare(s);
    states' := GapSoFar(s.received[0], states, evs, |evs|);
    assert evs[..|evs|] == evs;
  }
}
