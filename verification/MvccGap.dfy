/** What goes wrong between a transaction's timestamp and its stamps. */
module MvccGap {
  import opened Options
  import Keys
  import opened Mvcc
  import opened MvccInvariant
  import opened MvccWrites
  import opened MvccPipeline
  import opened MvccRuns
  import opened MvccHalves
  import opened MvccExamples

  // ----- what goes wrong in between -----

  /** The next transaction to be prepared has dropped the newest version of the name, a table
      that was committed before. */
  ghost predicate Dropping(s: State, name: string, id: nat) {
    && Shape(s) && s.received != [] && name in s.names && s.names[name] != [] && s.names[name][0] == id
    && s.entries[id].txn == Some(s.received[0].txn) && s.entries[id].op.SoftDelete? && s.entries[id].createAt != 0
  }

  /** The dropped version is only marked, and it is the transaction's only mark on it. */
  lemma DroppingOk(s: State, name: string, id: nat)
    requires Inv(s) && Dropping(s, name, id)
    ensures var e, t := s.entries[id], s.received[0].txn;
            && e.deleteAt == 0 && e.createAt <= s.clock && e.prev == Some(Create)
            && id in s.txns[t].tables && s.txns[t].tables[id] == TxnTable(false, true)
            && s.txns[t].state.Active? && s.txns[t].submitted && TxnOk(s.txns[t], s.clock)
  {
    assert EntryOk(s, id);
    assert s.txns[s.received[0].txn].state.Active? && TxnOk(s.txns[s.received[0].txn], s.clock);
  }

  /** The newest version of the name and what a lookup makes of it. */
  ghost predicate Newest(s: State, r: nat, name: string, id: nat) {
    && Shape(s) && r < |s.txns| && name in s.names && s.names[name] != [] && s.names[name][0] == id
    && 0 < s.entries[id].createAt < s.txns[r].start && s.entries[id].txn != Some(r)
  }

  lemma FindsMarked(s: State, r: nat, name: string, id: nat)
    requires Newest(s, r, name, id) && s.entries[id].txn.Some?
    ensures var e := s.entries[id];
            var writer := s.txns[e.txn.value];
            && (writer.commit.None? ==> Lookup(s, r, name) == Some(id))
            && (writer.commit.Some? && e.deleteAt == 0 && !writer.state.Rollbacked? ==> Lookup(s, r, name) == None)
            && (writer.commit.Some? && e.deleteAt > s.txns[r].start ==> Lookup(s, r, name) == Some(id))
  {
  }

  lemma FindsSettled(s: State, r: nat, name: string, id: nat)
    requires Newest(s, r, name, id) && s.entries[id].txn.None? && s.entries[id].deleteAt == 0
    ensures Lookup(s, r, name) == Some(id)
  {
  }

  /** Until the drop is stamped, a reader that started long before finds no table under the
      name, although it finds it before and afterwards, whether the drop commits or not. */
  lemma LookupInGap(s: State, r: nat, name: string, id: nat)
    requires Inv(s) && Dropping(s, name, id) && Running(s, r) && s.entries[id].createAt < s.txns[r].start
    ensures Lookup(s, r, name) == Some(id)
    ensures Shape(Take(s)) && r < |Take(s).txns| && Lookup(Take(s), r, name) == None
    ensures Shape(Prepare(s)) && r < |Prepare(s).txns| && Lookup(Prepare(s), r, name) == Some(id)
  {
    DroppingOk(s, name, id);
    FindsMarked(s, r, name, id);
    LookupDuring(s, r, name, id);
    LookupAfter(s, r, name, id);
  }

  lemma LookupDuring(s: State, r: nat, name: string, id: nat)
    requires Inv(s) && Dropping(s, name, id) && Running(s, r) && s.entries[id].createAt < s.txns[r].start
    ensures Shape(Take(s)) && r < |Take(s).txns| && Lookup(Take(s), r, name) == None
  {
    DroppingOk(s, name, id);
    TakeShape(s);
    FindsMarked(Take(s), r, name, id);
  }

  lemma LookupAfter(s: State, r: nat, name: string, id: nat)
    requires Inv(s) && Dropping(s, name, id) && Running(s, r) && s.entries[id].createAt < s.txns[r].start
    ensures Shape(Prepare(s)) && r < |Prepare(s).txns| && Lookup(Prepare(s), r, name) == Some(id)
  {
    DropPrepared(s, name, id);
    ReaderPrepared(s, r);
    DroppingOk(s, name, id);
    FindsPrepared(s, Prepare(s), r, name, id);
  }

  lemma ReaderPrepared(s: State, r: nat)
    requires Inv(s) && Running(s, r)
    ensures Shape(Prepare(s)) && r < |Prepare(s).txns| && Prepare(s).txns[r].start == s.txns[r].start <= s.clock
  {
    StepKeeps(s, EvPrepare);
    PrepareTxn(s, r);
    assert TxnOk(s.txns[r], s.clock);
  }

  lemma FindsPrepared(s: State, s': State, r: nat, name: string, id: nat)
    requires Newest(s, r, name, id) && s.entries[id].txn.Some? && s.entries[id].deleteAt == 0
    requires Shape(s') && r < |s'.txns| && s'.txns[r].start == s.txns[r].start <= s.clock
    requires name in s'.names && s'.names[name] != [] && s'.names[name][0] == id && s.entries[id].txn.value < |s'.txns|
    requires s'.txns[s.entries[id].txn.value].commit.Some?
    requires s'.entries[id] == s.entries[id].(deleteAt := s.clock + 1) || s'.entries[id] == s.entries[id].(op := Create, txn := None)
    ensures Lookup(s', r, name) == Some(id)
  {
    if s'.entries[id].txn.Some? {
      FindsMarked(s', r, name, id);
    } else {
      FindsSettled(s', r, name, id);
    }
  }

  /** After the prepare the version is deleted with the new timestamp, or as it was. */
  lemma DropPrepared(s: State, name: string, id: nat)
    requires Inv(s) && Dropping(s, name, id)
    ensures var s', t := Prepare(s), s.received[0].txn;
            && name in s'.names && s'.names[name] != [] && s'.names[name][0] == id && id < |s'.entries| && t < |s'.txns|
            && s'.txns[t].commit == Some(s.clock + 1)
            && (s'.entries[id] == s.entries[id].(deleteAt := s.clock + 1) || s'.entries[id] == s.entries[id].(op := Create, txn := None))
  {
    DroppingOk(s, name, id);
    var t := s.received[0].txn;
    assert Unlist(s.names[name], s.txns[t].tables)[0] == id;
    assert PrepareCommit(s, t).entries[id] == StampEntry(s.entries[id], id, s.txns[t].tables, s.clock + 1);
    assert PrepareRollback(s, t).entries[id] == UnwindEntry(s.entries[id], id, s.txns[t].tables);
  }

  /** The transaction is going to be rolled back. */
  ghost predicate GoesBack(s: State)
    requires Shape(s) && s.received != []
  {
    s.received[0].request.Rollback? || CheckFails(s, s.received[0].txn, s.clock + 1)
  }

  /** Before the timestamp a create of the name conflicts with the drop, and after the unwinding
      the name is taken again; in between the create goes through. */
  lemma CreateInGap(s: State, u: nat, name: string, id: nat)
    requires Inv(s) && Dropping(s, name, id) && GoesBack(s) && Running(s, u)
    ensures MayCreate(s, u, name).WriteConflict?
    ensures Shape(Take(s)) && u < |Take(s).txns| && MayCreate(Take(s), u, name).Done?
    ensures Shape(Prepare(s)) && u < |Prepare(s).txns| && MayCreate(Prepare(s), u, name).Duplicate?
  {
    DroppingOk(s, name, id);
    CreateDuring(s, u, name, id);
    CreateAfter(s, u, name, id);
  }

  lemma CreateAfter(s: State, u: nat, name: string, id: nat)
    requires Inv(s) && Dropping(s, name, id) && GoesBack(s) && Running(s, u)
    ensures Shape(Prepare(s)) && u < |Prepare(s).txns| && MayCreate(Prepare(s), u, name).Duplicate?
  {
    DroppingOk(s, name, id);
    ReaderPrepared(s, u);
    DropPrepared(s, name, id);
    BackPrepared(s, name, id);
  }

  lemma CreateDuring(s: State, u: nat, name: string, id: nat)
    requires Inv(s) && Dropping(s, name, id) && Running(s, u)
    ensures Shape(Take(s)) && u < |Take(s).txns| && MayCreate(Take(s), u, name).Done?
  {
    DroppingOk(s, name, id);
    TakeShape(s);
  }

  lemma BackPrepared(s: State, name: string, id: nat)
    requires Inv(s) && Dropping(s, name, id) && GoesBack(s)
    ensures id < |Prepare(s).entries| && Prepare(s).entries[id] == s.entries[id].(op := Create, txn := None)
  {
    DroppingOk(s, name, id);
    var t := s.received[0].txn;
    assert PrepareRollback(s, t).entries[id] == UnwindEntry(s.entries[id], id, s.txns[t].tables);
  }

  /** The state after a create in between. */
  ghost function Between(s: State, u: nat, name: string): State
    requires Shape(s) && s.received != [] && Shape(Take(s)) && u < |Take(s).txns|
  {
    CreateTable(Take(s), u, name)
  }

  lemma BetweenOk(s: State, u: nat, name: string, id: nat)
    requires Inv(s) && Dropping(s, name, id) && Running(s, u)
    ensures Shape(Take(s)) && u < |Take(s).txns| && Shape(Between(s, u, name)) && Timed(Between(s, u, name), s.received[0].txn)
    ensures var s', t := Between(s, u, name), s.received[0].txn;
            && s'.entries == s.entries + [Entry(name, Some(u), Create, None, 0, 0)]
            && s'.names == s.names[name := [|s.entries|] + s.names[name]]
            && s'.txns[t] == Take(s).txns[t] && s'.txns[t].tables == s.txns[t].tables && s'.txns[t].symbols == s.txns[t].symbols
            && s'.txns[t].commit == Some(s.clock + 1)
  {
    DroppingOk(s, name, id);
    CreateDuring(s, u, name, id);
    TakeShape(s);
    CreateShape(Take(s), u, name);
  }

  /** A check that fails goes on to fail. */
  lemma StillFails(s: State, u: nat, name: string, id: nat)
    requires Inv(s) && Dropping(s, name, id) && Running(s, u) && CheckFails(s, s.received[0].txn, s.clock + 1)
    requires Shape(Take(s)) && u < |Take(s).txns| && Shape(Between(s, u, name)) && s.received[0].txn < |Between(s, u, name).txns|
    ensures CheckFails(Between(s, u, name), s.received[0].txn, s.clock + 1)
  {
    DroppingOk(s, name, id);
    CreateDuring(s, u, name, id);
    TakeShape(s);
    CheckInGap(s);
    CreateCheck(Take(s), u, name, s.received[0].txn);
  }

  /** The create in between and the drop's way back leave the name with two versions: the new
      one on top of one that is not deleted. */
  lemma TwoVersions(s: State, u: nat, name: string, id: nat)
    requires Inv(s) && Dropping(s, name, id) && GoesBack(s) && Running(s, u)
    ensures Shape(Take(s)) && u < |Take(s).txns| && Shape(Between(s, u, name)) && Timed(Between(s, u, name), s.received[0].txn)
    ensures var s' := Finish(Between(s, u, name), s.received[0]);
            && name in s'.names && |s'.names[name]| >= 2 && s'.names[name][..2] == [|s.entries|, id]
            && |s'.entries| == |s.entries| + 1
            && s'.entries[id] == s.entries[id].(op := Create, txn := None)
            && s'.entries[|s.entries|] == Entry(name, Some(u), Create, None, 0, 0)
  {
    DroppingOk(s, name, id);
    BetweenOk(s, u, name, id);
    BackBetween(s, u, name, id);
    UnwoundVersions(s, Between(s, u, name), name, id);
  }

  lemma BackBetween(s: State, u: nat, name: string, id: nat)
    requires Inv(s) && Dropping(s, name, id) && GoesBack(s) && Running(s, u)
    requires Shape(Take(s)) && u < |Take(s).txns| && Shape(Between(s, u, name)) && Timed(Between(s, u, name), s.received[0].txn)
    requires Between(s, u, name).txns[s.received[0].txn].commit == Some(s.clock + 1)
    ensures Finish(Between(s, u, name), s.received[0]) == Unwound(Between(s, u, name), s.received[0].txn)
  {
    if s.received[0].request.Commit? {
      StillFails(s, u, name, id);
    }
  }

  lemma UnwoundVersions(s: State, s2: State, name: string, id: nat)
    requires Dropping(s, name, id) && Shape(s2) && Timed(s2, s.received[0].txn)
    requires var tables := s2.txns[s.received[0].txn].tables;
             id in tables && tables[id] == TxnTable(false, true) && |s.entries| !in tables
    requires s.entries[id].prev == Some(Create) && s2.names == s.names[name := [|s.entries|] + s.names[name]]
    requires |s2.entries| == |s.entries| + 1 && s2.entries[id] == s.entries[id]
    ensures var s' := Unwound(s2, s.received[0].txn);
            && name in s'.names && |s'.names[name]| >= 2 && s'.names[name][..2] == [|s.entries|, id]
            && |s'.entries| == |s2.entries|
            && s'.entries[id] == s.entries[id].(op := Create, txn := None)
            && s'.entries[|s.entries|] == s2.entries[|s.entries|]
  {
    var t, vs := s.received[0].txn, s2.names[name];
    var tables := s2.txns[t].tables;
    assert vs[0] == |s.entries| && vs[1] == id && vs[1..][0] == id;
    assert Unlist(vs, tables) == [vs[0]] + Unlist(vs[1..], tables);
    assert Unlist(vs[1..], tables) == [id] + Unlist(vs[1..][1..], tables);
    assert Unwound(s2, t).entries[id] == UnwindEntry(s2.entries[id], id, tables);
    assert Unwound(s2, t).entries[|s.entries|] == UnwindEntry(s2.entries[|s.entries|], |s.entries|, tables);
  }

  /** The creator commits. */
  ghost function CommittedToo(s: State, u: nat): State
    requires Shape(s) && u < |s.txns| && Shape(Submit(s, u, Commit))
  {
    PrepareCommit(Submit(s, u, Commit), u)
  }

  /** Then both versions are alive, which never happens without the gap. */
  lemma BothAlive(s3: State, u: nat, id: nat, top: nat)
    requires Shape(s3) && u < |s3.txns| && Shape(Submit(s3, u, Commit)) && s3.txns[u].CanCommit(s3.clock + 1)
    requires id < |s3.entries| && top < |s3.entries| && 0 < s3.entries[id].createAt <= s3.clock && s3.entries[id].deleteAt == 0
    requires s3.entries[top].createAt == 0 == s3.entries[top].deleteAt && s3.entries[top].op.Create?
    requires !Wrote(s3.txns[u].tables, id) && Wrote(s3.txns[u].tables, top)
    ensures var s' := CommittedToo(s3, u);
            id < |s'.entries| && top < |s'.entries| && Alive(s'.entries[id], s'.clock) && Alive(s'.entries[top], s'.clock)
  {
    var s4, ts := Submit(s3, u, Commit), s3.clock + 1;
    var tables := s4.txns[u].tables;
    assert CommittedToo(s3, u).entries[id] == StampEntry(s4.entries[id], id, tables, ts);
    assert CommittedToo(s3, u).entries[top] == StampEntry(s4.entries[top], top, tables, ts);
  }

  /** In every catalog in which a drop is about to be taken back: another transaction creates
      the name in between and commits, and two versions of the name are alive. */
  lemma GapBreaksLifetimes(s: State, u: nat, name: string, id: nat)
    requires Inv(s) && Dropping(s, name, id) && GoesBack(s) && Running(s, u)
    ensures Shape(Take(s)) && u < |Take(s).txns| && Shape(Between(s, u, name)) && Timed(Between(s, u, name), s.received[0].txn)
    ensures var s3 := Finish(Between(s, u, name), s.received[0]);
            && Shape(s3) && u < |s3.txns| && Shape(Submit(s3, u, Commit))
            && var s' := CommittedToo(s3, u);
               && name in s'.names && |s'.names[name]| >= 2 && s'.names[name][..2] == [|s.entries|, id]
               && id < |s.entries| < |s'.entries| && Alive(s'.entries[id], s'.clock) && Alive(s'.entries[|s.entries|], s'.clock)
  {
    TwoVersions(s, u, name, id);
    CreatorAfter(s, u, name, id);
    DroppingOk(s, name, id);
    BothAlive(Finish(Between(s, u, name), s.received[0]), u, id, |s.entries|);
  }

  lemma CreatorAfter(s: State, u: nat, name: string, id: nat)
    requires Inv(s) && Dropping(s, name, id) && Running(s, u)
    ensures Shape(Take(s)) && u < |Take(s).txns| && Shape(Between(s, u, name)) && Timed(Between(s, u, name), s.received[0].txn)
    ensures var s3 := Finish(Between(s, u, name), s.received[0]);
            && Shape(s3) && u < |s3.txns| && Shape(Submit(s3, u, Commit)) && s3.clock == s.clock + 1
            && s3.txns[u].CanCommit(s3.clock + 1) && !Wrote(s3.txns[u].tables, id) && Wrote(s3.txns[u].tables, |s.entries|)
  {
    BetweenOk(s, u, name, id);
    CreatorBetween(s, u, name, id);
    FinishShape(Between(s, u, name), s.received[0]);
    SubmitShape(Finish(Between(s, u, name), s.received[0]), u, Commit);
  }

  lemma CreatorBetween(s: State, u: nat, name: string, id: nat)
    requires Inv(s) && Dropping(s, name, id) && Running(s, u) && Shape(Take(s)) && u < |Take(s).txns|
    ensures u != s.received[0].txn
    ensures var s2 := Between(s, u, name);
            && s2.clock == s.clock + 1 && u < |s2.txns| && s2.txns[u].CanCommit(s2.clock + 1)
            && !Wrote(s2.txns[u].tables, id) && Wrote(s2.txns[u].tables, |s.entries|)
  {
    DroppingOk(s, name, id);
    CreateDuring(s, u, name, id);
    assert TxnOk(s.txns[u], s.clock) && EntryOk(s, id);
    MarkIsRecord(s, u, id);
  }

  // ----- a run that gets there -----

  /** A committed table, a transaction that drops it and asks for its rollback, and another
      transaction that is running. */
  ghost function GapRun(k: nat): State
    requires 4 <= k <= 9
  {
    var symbols := {Keys.EncodeDB(1)};
    var first := Txn(1, Some(2), Committed, true, map[0 := TxnTable(true, false)], symbols);
    var kept, dropped := Entry("t", None, Create, None, 2, 0), Entry("t", Some(1), SoftDelete, Some(Create), 2, 0);
    var second := Txn(3, None, Active, k == 9, if k < 7 then map[] else map[0 := TxnTable(false, true)], if k < 7 then {} else symbols);
    var third := Txn(4, None, Active, false, map[], {});
    if k == 4 then MissRun(4)
    else State(1, if k == 5 then 2 else if k < 8 then 3 else 4,
               if k == 5 then [first] else if k < 8 then [first, second] else [first, second, third],
               [if k < 7 then kept else dropped], map["t" := [0]], [], if k == 9 then [OpTxn(1, Rollback)] else [], [])
  }

  ghost function GapEvent(k: nat): Event {
    if k == 4 then EvApply else if k == 6 then EvDrop(1, "t") else if k == 8 then EvSubmit(1, Rollback) else EvStart
  }

  lemma GapApply()
    ensures Shape(GapRun(4)) && Apply(GapRun(4)) == GapRun(5)
  {
    var s := GapRun(4);
    assert SettleEntries(s.entries, s.txns[0].tables) == GapRun(5).entries;
    assert s.prepared[1..] == [];
  }

  lemma GapFinds()
    ensures var s := GapRun(6); Shape(s) && Lookup(s, 1, "t") == Some(0) && DropOutcome(s, 1, "t").Done?
  {
    var s := GapRun(6);
    assert s.names["t"] == [0] && Examine(s, 1, 0).Found?;
  }

  lemma GapDrop()
    ensures Shape(GapRun(6)) && DropTable(GapRun(6), 1, "t") == GapRun(7)
  {
    var s := GapRun(6);
    GapFinds();
    var s' := DropTable(s, 1, "t");
    assert s'.txns[1].symbols == {Keys.EncodeDB(1)};
    assert s'.txns == GapRun(7).txns;
  }

  lemma GapStep(k: nat)
    requires 4 <= k < 9
    ensures Shape(GapRun(k)) && Enabled(GapRun(k), GapEvent(k)) && Step(GapRun(k), GapEvent(k)) == GapRun(k + 1)
  {
    if k == 4 {
      GapApply();
    } else if k == 6 {
      GapDrop();
    }
  }

  lemma {:induction false} GapPrefix(k: nat) returns (states: seq<State>, evs: seq<Event>)
    requires 4 <= k <= 9
    ensures Run(states, evs) && states[0] == Init(1) && |evs| == k && states[k] == GapRun(k)
  {
    if k == 4 {
      states, evs := MissPrefix(4);
    } else {
      states, evs := GapPrefix(k - 1);
      GapStep(k - 1);
      Extend(states, evs, GapEvent(k - 1));
      states, evs := states + [GapRun(k)], evs + [GapEvent(k - 1)];
    }
  }

  /** A run from the empty catalog to a state as above: a lookup in between finds nothing, and
      a create in between leads to two versions that are alive. */
  lemma GapIsReached() returns (states: seq<State>, evs: seq<Event>)
    ensures Run(states, evs) && states[0] == Init(1) && |evs| == 9 && Inv(states[9])
    ensures Dropping(states[9], "t", 0) && GoesBack(states[9])
    ensures Running(states[9], 2) && states[9].entries[0].createAt < states[9].txns[2].start
  {
    states, evs := GapPrefix(9);
    InitInv(1);
    RunKeeps(states, evs, 9);
  }
}
