/** Finding a table by name: the newest-first walk against the read view. */
module MvccLookup {
  import opened Options
  import opened Mvcc
  import opened MvccInvariant
  import opened MvccCreators
  import opened MvccRuns
  import opened MvccSnapshot

  /** A create that is stamped before the reader's start but not yet applied. */
  ghost predicate PendingCreate(s: State, r: nat, id: nat)
    requires Shape(s) && r < |s.txns| && id < |s.entries|
  {
    var e := s.entries[id];
    && e.txn.Some? && e.txn.value != r && s.txns[e.txn.value].state.Committing?
    && e.deleteAt == 0 && e.CreateBefore(s.txns[r].start)
  }

  /** Versions of one name, newest first, none of them written by the reader. */
  ghost predicate Foreign(s: State, r: nat, name: string, vs: seq<nat>)
    requires Shape(s)
  {
    && VersionsOk(s, name, vs)
    && forall i :: 0 <= i < |vs| ==> Listed(s, vs[i]) && s.entries[vs[i]].txn != Some(r)
  }

  /** What the walk's decision at one version means. */
  lemma ExamineMeans(s: State, r: nat, id: nat)
    requires Shape(s) && TimeOk(s) && StampsOk(s) && Running(s, r) && Listed(s, id) && EntryOk(s, id)
    requires s.entries[id].txn != Some(r)
    ensures match Examine(s, r, id)
            case Skip => !InView(s, r, id)
            case Found => InView(s, r, id) && !PendingCreate(s, r, id)
            case Stop =>
              var e := s.entries[id];
              PendingCreate(s, r, id) || (e.DeleteBefore(s.txns[r].start) && (e.txn.None? || !e.CreateAndDropInSameTxn()))
    ensures PendingCreate(s, r, id) ==> InView(s, r, id) && Examine(s, r, id).Stop?
  {
    var e := s.entries[id];
    assert e.createAt != s.txns[r].start && e.deleteAt != s.txns[r].start;
    assert e.txn.Some? ==> TxnOk(s.txns[e.txn.value], s.clock);
  }

  /** Nothing older than a version the reader's start has reached is visible. */
  lemma OlderUnseen(s: State, r: nat, older: nat, newer: nat)
    requires Inv(s) && Running(s, r) && Listed(s, older) && Listed(s, newer) && s.entries[older].txn != Some(r)
    requires Precedes(s.txns, s.entries[older], s.entries[newer])
    requires s.entries[newer].createAt != 0 && s.entries[newer].createAt <= s.txns[r].start
    ensures !InView(s, r, older)
  {
    assert EntryOk(s, older) && EntryOk(s, newer);
  }

  lemma {:induction false} WalkExact(s: State, r: nat, name: string, vs: seq<nat>)
    requires Inv(s) && Running(s, r) && Foreign(s, r, name, vs)
    ensures Walk(s, r, vs).Some? ==> Walk(s, r, vs).value in vs && InView(s, r, Walk(s, r, vs).value)
    ensures forall i :: 0 <= i < |vs| && InView(s, r, vs[i]) ==>
              (Walk(s, r, vs) == Some(vs[i]) <==> !PendingCreate(s, r, vs[i]))
  {
    if vs != [] {
      var h := vs[0];
      assert EntryOk(s, h);
      ExamineMeans(s, r, h);
      if Examine(s, r, h).Skip? {
        ForeignTail(s, r, name, vs);
        WalkExact(s, r, name, vs[1..]);
        assert forall i :: 0 < i < |vs| ==> vs[i] == vs[1..][i - 1];
      } else {
        forall i | 0 < i < |vs| ensures !InView(s, r, vs[i]) {
          assert Precedes(s.txns, s.entries[vs[i]], s.entries[h]);
          OlderUnseen(s, r, vs[i], h);
        }
      }
    }
  }

  lemma ForeignTail(s: State, r: nat, name: string, vs: seq<nat>)
    requires Shape(s) && Foreign(s, r, name, vs) && vs != []
    ensures Foreign(s, r, name, vs[1..])
  {
    var tail := vs[1..];
    assert forall i :: 0 <= i < |tail| ==> tail[i] == vs[i + 1];
    forall i, j | 0 <= i < j < |tail| ensures tail[i] != tail[j] && Precedes(s.txns, s.entries[tail[j]], s.entries[tail[i]]) {
      assert vs[i + 1] != vs[j + 1];
    }
  }

  /** If the reader has written a version of the name, the newest one is its own. */
  lemma OwnIsNewest(s: State, r: nat, name: string, i: nat)
    requires Inv(s) && Running(s, r) && name in s.names && i < |s.names[name]|
    requires s.entries[s.names[name][i]].txn == Some(r)
    ensures s.entries[s.names[name][0]].txn == Some(r)
  {
    var vs := s.names[name];
    assert VersionsOk(s, name, vs);
    assert EntryOk(s, vs[i]) && TxnOk(s.txns[r], s.clock);
    if i > 0 {
      assert Precedes(s.txns, s.entries[vs[i]], s.entries[vs[0]]);
    }
  }

  ghost predicate OwnOnTop(s: State, r: nat, name: string)
    requires Shape(s)
  {
    name in s.names && s.names[name] != [] && s.entries[s.names[name][0]].txn == Some(r)
  }

  lemma NotOwnIsForeign(s: State, r: nat, name: string)
    requires Inv(s) && Running(s, r) && name in s.names && !OwnOnTop(s, r, name)
    ensures Foreign(s, r, name, s.names[name])
  {
    var vs := s.names[name];
    assert VersionsOk(s, name, vs);
    forall i | 0 <= i < |vs| ensures Listed(s, vs[i]) && s.entries[vs[i]].txn != Some(r) {
      if s.entries[vs[i]].txn == Some(r) {
        OwnIsNewest(s, r, name, i);
      }
    }
  }

  /** Looking a table up by name. If the reader has written the name, it finds its newest
      write, or nothing if that is a drop. Otherwise it finds nothing it may not read, and
      it finds the entry it may read exactly if that is not a create still waiting to be
      applied; two such entries cannot exist. */
  lemma LookupExact(s: State, r: nat, name: string)
    requires Inv(s) && Running(s, r) && name in s.names
    ensures OwnOnTop(s, r, name) ==>
              Lookup(s, r, name) == if s.entries[s.names[name][0]].op.SoftDelete? then None else Some(s.names[name][0])
    ensures !OwnOnTop(s, r, name) && Lookup(s, r, name).Some? ==>
              Lookup(s, r, name).value in s.names[name] && TxnCanRead(s, r, Lookup(s, r, name).value)
    ensures !OwnOnTop(s, r, name) ==> forall i :: 0 <= i < |s.names[name]| && TxnCanRead(s, r, s.names[name][i]) ==>
              (Lookup(s, r, name) == Some(s.names[name][i]) <==> !PendingCreate(s, r, s.names[name][i]))
    ensures !OwnOnTop(s, r, name) ==> forall i, j :: 0 <= i < j < |s.names[name]| ==>
              !(TxnCanRead(s, r, s.names[name][i]) && TxnCanRead(s, r, s.names[name][j]))
  {
    var vs := s.names[name];
    if !OwnOnTop(s, r, name) {
      NotOwnIsForeign(s, r, name);
      WalkExact(s, r, name, vs);
      forall i | 0 <= i < |vs| ensures TxnCanRead(s, r, vs[i]) <==> InView(s, r, vs[i]) {
        CanReadIsView(s, r, vs[i]);
      }
      forall i, j | 0 <= i < j < |vs| ensures !(InView(s, r, vs[i]) && InView(s, r, vs[j])) {
        assert Precedes(s.txns, s.entries[vs[j]], s.entries[vs[i]]);
        assert EntryOk(s, vs[i]) && EntryOk(s, vs[j]);
      }
    }
  }

  // ----- panics -----

  lemma {:induction false} WalkFinds(s: State, r: nat, vs: seq<nat>)
    requires Shape(s) && r < |s.txns| && forall i :: 0 <= i < |vs| ==> vs[i] < |s.entries|
    ensures Walk(s, r, vs).Some? ==> Walk(s, r, vs).value < |s.entries| && Examine(s, r, Walk(s, r, vs).value).Found?
  {
    if vs != [] {
      WalkFinds(s, r, vs[1..]);
    }
  }

  /** Dropping by name never runs into the panic on an entry created after the start. */
  lemma DropNeverPanics(s: State, t: nat, name: string)
    requires Shape(s) && t < |s.txns|
    ensures !DropOutcome(s, t, name).Panic?
  {
    if name in s.names {
      WalkFinds(s, t, s.names[name]);
    }
  }

  /** Creating a table panics exactly when the name has been used and every transaction that
      created a table under it was rolled back. */
  lemma CreatePanicsIff(s: State, t: nat, name: string)
    requires Inv(s) && Running(s, t)
    ensures MayCreate(s, t, name).Panic? <==>
              && (exists id :: 0 <= id < |s.entries| && s.entries[id].name == name)
              && (forall u: nat, id: nat :: Created(s, u, id) && id < |s.entries| && s.entries[id].name == name ==> Undone(s.txns[u]))
  {
    EmptyNameIff(s, name);
    if id :| 0 <= id < |s.entries| && s.entries[id].name == name && Listed(s, id) {
      assert HasCreator(s, id);
      var u :| Created(s, u, id);
      assert !Undone(s.txns[u]);
    }
  }

  lemma EmptyNameIff(s: State, name: string)
    requires Shape(s) && NamesOk(s)
    ensures name in s.names && s.names[name] == [] <==>
              && (exists id :: 0 <= id < |s.entries| && s.entries[id].name == name)
              && (forall id :: 0 <= id < |s.entries| && s.entries[id].name == name ==> !Listed(s, id))
  {
    if name in s.names && s.names[name] != [] {
      var id := s.names[name][0];
      assert VersionsOk(s, name, s.names[name]);
      assert Listed(s, id) && s.entries[id].name == name;
    }
  }

  // ----- repeatable reads by name -----

  /** No transaction is between its preparation and its application. */
  ghost predicate Quiescent(s: State) {
    forall t :: 0 <= t < |s.txns| ==> !s.txns[t].state.Committing?
  }

  /** Outside the preparation window the walk and the read view are the same thing. */
  lemma QuietLookup(s: State, r: nat, name: string, id: nat)
    requires Inv(s) && Running(s, r) && Quiescent(s) && !OwnOnTop(s, r, name)
    ensures Lookup(s, r, name) == Some(id) <==>
              Listed(s, id) && s.entries[id].name == name && InView(s, r, id)
  {
    if name in s.names {
      NotOwnIsForeign(s, r, name);
      WalkExact(s, r, name, s.names[name]);
      if Listed(s, id) && s.entries[id].name == name && InView(s, r, id) {
        var i :| 0 <= i < |s.names[name]| && s.names[name][i] == id;
        assert !PendingCreate(s, r, id);
      }
    }
  }

  /** Entries that appear later are never seen by a reader that only watches. */
  lemma {:induction false} LaterUnseen(states: seq<State>, evs: seq<Event>, k: nat, l: nat, r: nat, id: nat)
    requires Run(states, evs) && Inv(states[0]) && k <= l < |states| && OthersOnly(evs, k, l, r)
    requires Running(states[k], r) && |states[k].entries| <= id < |states[l].entries|
    ensures Running(states[l], r) && !InView(states[l], r, id)
    decreases l - k
  {
    OthersFewer(evs, k, l, r);
    ReaderRuns(states, evs, k, l - 1, r);
    if id < |states[l - 1].entries| {
      LaterUnseen(states, evs, k, l - 1, r, id);
    }
    NextUnseen(states, evs, k, l - 1, r, id);
  }

  lemma OthersFewer(evs: seq<Event>, k: nat, l: nat, r: nat)
    requires k < l <= |evs| && OthersOnly(evs, k, l, r)
    ensures OthersOnly(evs, k, l - 1, r)
  {
  }

  lemma NextUnseen(states: seq<State>, evs: seq<Event>, j: nat, k: nat, r: nat, id: nat)
    requires Run(states, evs) && Inv(states[0]) && j <= k && k + 1 < |states| && OthersOnly(evs, j, k + 1, r)
    requires Running(states[k], r) && id < |states[k + 1].entries|
    requires id < |states[k].entries| ==> !InView(states[k], r, id)
    ensures Running(states[k + 1], r) && !InView(states[k + 1], r, id)
  {
    RunKeeps(states, evs, k);
    StepUnseen(states[k], evs[k], r, id);
  }

  lemma StepUnseen(s: State, ev: Event, r: nat, id: nat)
    requires Inv(s) && Enabled(s, ev) && Running(s, r) && !By(ev, r) && id < |Step(s, ev).entries|
    requires id < |s.entries| ==> !InView(s, r, id)
    ensures Running(Step(s, ev), r) && !InView(Step(s, ev), r, id)
  {
    StepKeepsReader(s, ev, r);
    if id < |s.entries| {
      StepKeepsView(s, ev, r, id);
    } else {
      StepAddsUnseen(s, ev, r, id);
    }
  }

  lemma {:induction false} ReaderRuns(states: seq<State>, evs: seq<Event>, k: nat, l: nat, r: nat)
    requires Run(states, evs) && Inv(states[0]) && k <= l < |states| && OthersOnly(evs, k, l, r) && Running(states[k], r)
    ensures Running(states[l], r)
    decreases l - k
  {
    if k < l {
      ReaderRuns(states, evs, k, l - 1, r);
      RunKeeps(states, evs, l - 1);
      StepKeepsReader(states[l - 1], evs[l - 1], r);
    }
  }

  /** Repeatable read: at any two quiet points of a run between which a reader did not act,
      it finds the same table, or no table, under every name it has not written. */
  lemma RepeatableLookup(states: seq<State>, evs: seq<Event>, k: nat, l: nat, r: nat, name: string)
    requires Run(states, evs) && Inv(states[0]) && k <= l < |states| && OthersOnly(evs, k, l, r)
    requires Running(states[k], r) && Shape(states[k]) && Shape(states[l]) && r < |states[l].txns|
    requires Quiescent(states[k]) && Quiescent(states[l]) && !OwnOnTop(states[k], r, name) && !OwnOnTop(states[l], r, name)
    ensures Lookup(states[l], r, name) == Lookup(states[k], r, name)
  {
    RunKeeps(states, evs, k);
    RunKeeps(states, evs, l);
    ReaderRuns(states, evs, k, l, r);
    var a, b := Lookup(states[k], r, name), Lookup(states[l], r, name);
    if a.Some? {
      FoundLater(states, evs, k, l, r, name, a.value);
    } else if b.Some? {
      FoundBefore(states, evs, k, l, r, name, b.value);
    }
  }

  lemma FoundLater(states: seq<State>, evs: seq<Event>, k: nat, l: nat, r: nat, name: string, id: nat)
    requires Run(states, evs) && Inv(states[0]) && k <= l < |states| && OthersOnly(evs, k, l, r)
    requires Inv(states[k]) && Inv(states[l]) && Running(states[k], r) && Running(states[l], r)
    requires Quiescent(states[k]) && Quiescent(states[l]) && !OwnOnTop(states[k], r, name) && !OwnOnTop(states[l], r, name)
    requires Lookup(states[k], r, name) == Some(id)
    ensures Lookup(states[l], r, name) == Some(id)
  {
    QuietLookup(states[k], r, name, id);
    assert states[k].entries[id].txn != Some(r) by {
      NotOwnIsForeign(states[k], r, name);
    }
    ViewAcrossRun(states, evs, k, l, r, id);
    NameAcrossRun(states, evs, k, l, id);
    QuietLookup(states[l], r, name, id);
  }

  lemma FoundBefore(states: seq<State>, evs: seq<Event>, k: nat, l: nat, r: nat, name: string, id: nat)
    requires Run(states, evs) && Inv(states[0]) && k <= l < |states| && OthersOnly(evs, k, l, r)
    requires Inv(states[k]) && Inv(states[l]) && Running(states[k], r) && Running(states[l], r)
    requires Quiescent(states[k]) && Quiescent(states[l]) && !OwnOnTop(states[k], r, name) && !OwnOnTop(states[l], r, name)
    requires Lookup(states[l], r, name) == Some(id)
    ensures Lookup(states[k], r, name) == Some(id)
  {
    QuietLookup(states[l], r, name, id);
    if |states[k].entries| <= id {
      LaterUnseen(states, evs, k, l, r, id);
    }
    ViewAcrossRun(states, evs, k, l, r, id);
    NameAcrossRun(states, evs, k, l, id);
    QuietLookup(states[k], r, name, id);
  }

  lemma {:induction false} NameAcrossRun(states: seq<State>, evs: seq<Event>, k: nat, l: nat, id: nat)
    requires Run(states, evs) && Inv(states[0]) && k <= l < |states| && id < |states[k].entries|
    ensures id < |states[l].entries| && states[l].entries[id].name == states[k].entries[id].name
    decreases l - k
  {
    if k < l {
      NameAcrossRun(states, evs, k, l - 1, id);
      NextKeepsStamps(states, evs, l - 1, id);
    }
  }
}
