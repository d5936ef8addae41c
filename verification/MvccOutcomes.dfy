/** When a create, a drop or a commit goes through, and what the transaction sees of it. */
module MvccOutcomes {
  import opened Options
  import opened Mvcc
  import opened MvccInvariant
  import opened MvccRuns
  import opened MvccSnapshot
  import opened MvccLookup

  /** The version a create would go on top of. */
  ghost predicate OnTop(s: State, name: string, id: nat) {
    id < |s.entries| && name in s.names && s.names[name] != [] && s.names[name][0] == id
  }

  /** Somebody else has written the version and has no timestamp yet. */
  ghost predicate Contended(s: State, t: nat, id: nat)
    requires Shape(s) && id < |s.entries|
  {
    var e := s.entries[id];
    e.txn.Some? && e.txn.value != t && s.txns[e.txn.value].state.Active?
  }

  /** The version is deleted: with a timestamp, or by a transaction still on it. */
  ghost predicate Dropped(s: State, id: nat)
    requires Shape(s) && id < |s.entries|
  {
    var e := s.entries[id];
    if e.txn.None? then e.deleteAt != 0
    else if s.txns[e.txn.value].state.Active? then id in s.txns[e.txn.value].tables && s.txns[e.txn.value].tables[id].dropped
    else e.deleteAt != 0
  }

  /** Creating a table. A name nobody has used is free. Otherwise the newest version decides:
      another writer without a timestamp is a conflict, a deleted version makes room, and any
      other version is a duplicate. */
  lemma CreateOutcome(s: State, t: nat, name: string, id: nat)
    requires Inv(s) && Running(s, t)
    ensures (forall i :: 0 <= i < |s.entries| ==> s.entries[i].name != name) ==> MayCreate(s, t, name).Done?
    ensures OnTop(s, name, id) ==>
              && (MayCreate(s, t, name).WriteConflict? <==> Contended(s, t, id))
              && (MayCreate(s, t, name).Done? <==> !Contended(s, t, id) && Dropped(s, id))
              && (MayCreate(s, t, name).Duplicate? <==> !Contended(s, t, id) && !Dropped(s, id))
  {
    if OnTop(s, name, id) {
      assert VersionsOk(s, name, s.names[name]);
      assert Listed(s, id) && EntryOk(s, id);
      if s.entries[id].txn.Some? {
        assert TxnOk(s.txns[s.entries[id].txn.value], s.clock);
      }
    }
  }

  /** Nothing of the name carries a timestamp from after the transaction's start. */
  ghost predicate UpToDate(s: State, t: nat, name: string)
    requires t < |s.txns|
  {
    forall id :: 0 <= id < |s.entries| && s.entries[id].name == name ==>
      s.entries[id].createAt < s.txns[t].start && s.entries[id].deleteAt < s.txns[t].start
  }

  /** At a quiet point a transaction that sees the latest state of a name can create it, if
      nobody else is about to write it, exactly if it finds no table under it. */
  lemma QuietCreate(s: State, t: nat, name: string, id: nat)
    requires Inv(s) && Running(s, t) && Quiescent(s) && OnTop(s, name, id) && UpToDate(s, t, name)
    requires !Contended(s, t, id) && s.entries[id].txn != Some(t)
    ensures MayCreate(s, t, name).Done? <==> Lookup(s, t, name).None?
  {
    CreateOutcome(s, t, name, id);
    assert VersionsOk(s, name, s.names[name]);
    assert Listed(s, id) && EntryOk(s, id) && TxnOk(s.txns[t], s.clock);
    QuietLookup(s, t, name, id);
    if Lookup(s, t, name).Some? {
      QuietLookup(s, t, name, Lookup(s, t, name).value);
      OnlyTopSeen(s, t, name, Lookup(s, t, name).value);
    }
  }

  lemma OnlyTopSeen(s: State, t: nat, name: string, id: nat)
    requires Inv(s) && Running(s, t) && UpToDate(s, t, name) && name in s.names && s.names[name] != []
    requires Listed(s, id) && s.entries[id].name == name && InView(s, t, id)
    requires s.entries[s.names[name][0]].txn != Some(t) && !Contended(s, t, s.names[name][0])
    ensures s.names[name][0] == id
  {
    forall i | 0 < i < |s.names[name]| ensures !InView(s, t, s.names[name][i]) {
      OlderIsGone(s, t, name, i);
    }
  }

  lemma OlderIsGone(s: State, t: nat, name: string, i: nat)
    requires Inv(s) && Running(s, t) && UpToDate(s, t, name) && name in s.names && 0 < i < |s.names[name]|
    requires s.entries[s.names[name][0]].txn != Some(t) && !Contended(s, t, s.names[name][0])
    ensures !InView(s, t, s.names[name][i])
  {
    var vs := s.names[name];
    assert VersionsOk(s, name, vs) && EntryOk(s, vs[i]);
    NotOwnIsForeign(s, t, name);
    assert Precedes(s.txns, s.entries[vs[i]], s.entries[vs[0]]);
  }

  /** After a create the transaction finds its table. */
  lemma CreateShows(s: State, t: nat, name: string)
    requires Inv(s) && Enabled(s, EvCreate(t, name)) && MayCreate(s, t, name).Done?
    ensures var s' := CreateTable(s, t, name);
            Inv(s') && Running(s', t) && Lookup(s', t, name) == Some(|s.entries|)
  {
    StepKeeps(s, EvCreate(t, name));
    LookupExact(CreateTable(s, t, name), t, name);
  }

  // ----- dropping -----

  /** Dropping a table. There is nothing to drop if the name walk finds nothing, or a version
      that was deleted since the transaction started; a version somebody else is on is a
      conflict, and any other is dropped. */
  lemma WhenDropped(s: State, t: nat, name: string)
    requires Inv(s) && Running(s, t)
    ensures match Lookup(s, t, name)
            case None => DropOutcome(s, t, name).NotFound?
            case Some(id) =>
              && id < |s.entries|
              && (DropOutcome(s, t, name).WriteConflict? <==> s.entries[id].txn.Some? && s.entries[id].txn.value != t)
              && (DropOutcome(s, t, name).NotFound? <==> s.entries[id].txn.None? && s.entries[id].deleteAt != 0)
              && (DropOutcome(s, t, name).Done? <==>
                    s.entries[id].txn == Some(t) || (s.entries[id].txn.None? && s.entries[id].deleteAt == 0))
  {
    LookupInRange(s, t, name);
    if name in s.names {
      WalkFinds(s, t, s.names[name]);
    }
  }

  /** After a drop the transaction finds no table under the name. */
  lemma DropHides(s: State, t: nat, name: string)
    requires Inv(s) && Running(s, t) && DropOutcome(s, t, name).Done?
    ensures var s' := DropTable(s, t, name);
            Inv(s') && Running(s', t) && Lookup(s', t, name) == None
  {
    StepKeeps(s, EvDrop(t, name));
    LookupInRange(s, t, name);
    var s', id := DropTable(s, t, name), Lookup(s, t, name).value;
    var i :| 0 <= i < |s.names[name]| && s.names[name][i] == id;
    OwnIsNewest(s', t, name, i);
    if i > 0 {
      LookupExact(s, t, name);
    }
    LookupExact(s', t, name);
  }
}
