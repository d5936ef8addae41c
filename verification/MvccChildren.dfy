/** Segments and blocks: what becomes of them along a run, and what a transaction's creates
    under a table mean for its commit. */
module MvccChildren {
  import opened Options
  import opened Wire
  import opened Keys
  import opened Mvcc
  import opened MvccInvariant
  import opened MvccPipeline
  import opened MvccRuns

  // ----- the fate of a segment or block -----

  /** A child of t, by the state t is in: it is stamped exactly if t got through, with the
      timestamp of t, and is released when t is applied, save under a table that came and went
      within one transaction. */
  ghost predicate Fate(s: State, c: nat, t: nat) {
    && Shape(s) && c < |s.children| && t < |s.txns|
    && var child, txn := s.children[c], s.txns[t];
       match txn.state
       case Active => child.txn == Some(t) && child.createAt == 0
       case Committing => child.txn == Some(t) && Some(child.createAt) == txn.commit
       case Committed =>
         && Some(child.createAt) == txn.commit
         && (child.txn.None? || (child.txn == Some(t) && s.entries[child.table].CreateAndDropInSameTxn()))
       case _ => child.txn == Some(t) && child.createAt == 0
  }

  /** The child stays where it was made. */
  ghost predicate SamePlace(s: State, s': State, c: nat) {
    c < |s.children| && c < |s'.children| && s'.children[c].table == s.children[c].table && s'.children[c].segment == s.children[c].segment
  }

  /** A create under a known table, and for a block under one of its segments, adds one child,
      and nothing else ever does. */
  lemma WhenAdded(s: State, ev: Event)
    requires Shape(s) && Enabled(s, ev)
    ensures var s' := Step(s, ev);
            if ev.EvChild? && ev.table < |s.entries| && (ev.segment.Some? ==> IsSegmentOf(s, ev.segment.value, ev.table))
            then s'.children == s.children + [Child(ev.table, ev.segment, Some(ev.t), 0)]
            else |s'.children| == |s.children|
  {
    if ev.EvDrop? {
      LookupInRange(s, ev.t, ev.name);
    }
  }

  /** A commit that passes the check has no child under a deleted table. */
  lemma CheckedChild(s: State, t: nat, c: nat)
    requires Inv(s) && NextUp(s, t) && c < |s.children| && s.children[c].txn == Some(t) && s.children[c].createAt == 0
    requires !CheckFails(s, t, s.clock + 1)
    ensures s.entries[s.children[c].table].deleteAt == 0
  {
    assert ChildOk(s, s.children[c]);
    assert EntryOk(s, s.children[c].table);
    CheckedTableStands(s, t, s.children[c].table, s.clock + 1);
  }

  lemma PrepareFate(s: State, c: nat, t: nat)
    requires Inv(s) && Fate(s, c, t)
    ensures Fate(Prepare(s), c, t) && SamePlace(s, Prepare(s), c)
  {
    StepKeeps(s, EvPrepare);
    if s.received != [] {
      var u := s.received[0].txn;
      assert NextUp(s, u) && TxnOk(s.txns[u], s.clock);
      if u == t && !CheckFails(s, t, s.clock + 1) {
        CheckedChild(s, t, c);
      }
      PreparedFate(s, c, t);
    }
  }

  lemma PreparedFate(s: State, c: nat, t: nat)
    requires Shape(s) && s.received != [] && Fate(s, c, t) && Shape(Prepare(s)) && s.txns[s.received[0].txn].state.Active?
    requires TxnOk(s.txns[s.received[0].txn], s.clock)
    requires s.received[0].txn == t && !CheckFails(s, t, s.clock + 1) ==> s.entries[s.children[c].table].deleteAt == 0
    ensures Fate(Prepare(s), c, t) && SamePlace(s, Prepare(s), c)
  {
    var u, ts := s.received[0].txn, s.clock + 1;
    assert PrepareCommit(s, u).children[c] == StampChild(s.children[c], s.entries, u, ts);
    assert PrepareRollback(s, u).children[c] == s.children[c];
    var id := s.children[c].table;
    assert PrepareCommit(s, u).entries[id] == StampEntry(s.entries[id], id, s.txns[u].tables, ts);
    assert PrepareRollback(s, u).entries[id] == UnwindEntry(s.entries[id], id, s.txns[u].tables);
  }

  lemma ApplyFate(s: State, c: nat, t: nat)
    requires Inv(s) && Fate(s, c, t)
    ensures Fate(Apply(s), c, t) && SamePlace(s, Apply(s), c)
  {
    StepKeeps(s, EvApply);
    if s.prepared != [] {
      assert s.txns[s.prepared[0].txn].state == StateOf(s.prepared[0].request);
      AppliedFate(s, c, t);
    }
  }

  lemma AppliedFate(s: State, c: nat, t: nat)
    requires Shape(s) && s.prepared != [] && Fate(s, c, t) && Shape(Apply(s))
    requires s.txns[s.prepared[0].txn].state == StateOf(s.prepared[0].request)
    ensures Fate(Apply(s), c, t) && SamePlace(s, Apply(s), c)
    ensures s.prepared[0] == OpTxn(t, Commit) ==>
              (Apply(s).children[c].txn.None? <==> !s.entries[s.children[c].table].CreateAndDropInSameTxn())
  {
    var op, id := s.prepared[0], s.children[c].table;
    if op.request.Commit? {
      assert Apply(s).children[c] == SettleChild(s.children[c], s.entries, op.txn);
      assert Apply(s).entries[id] == SettleEntry(s.entries[id], id, s.txns[op.txn].tables);
    }
  }

  /** Neither the child nor its transaction changes. */
  lemma FateFrame(s: State, s': State, c: nat, t: nat)
    requires Fate(s, c, t) && Shape(s') && c < |s'.children| && s'.children[c] == s.children[c] && t < |s'.txns|
    requires s'.txns[t].state == s.txns[t].state && s'.txns[t].commit == s.txns[t].commit
    requires var id := s.children[c].table;
             id < |s'.entries| && s'.entries[id].createAt == s.entries[id].createAt && s'.entries[id].deleteAt == s.entries[id].deleteAt
    ensures Fate(s', c, t) && SamePlace(s, s', c)
  {
  }

  lemma OtherFate(s: State, ev: Event, c: nat, t: nat)
    requires Inv(s) && Enabled(s, ev) && Fate(s, c, t) && !ev.EvPrepare? && !ev.EvApply?
    ensures Fate(Step(s, ev), c, t) && SamePlace(s, Step(s, ev), c)
  {
    StepKeeps(s, ev);
    OtherStep(s, ev, c, t);
    FateFrame(s, Step(s, ev), c, t);
  }

  lemma OtherStep(s: State, ev: Event, c: nat, t: nat)
    requires Shape(s) && Enabled(s, ev) && c < |s.children| && t < |s.txns| && !ev.EvPrepare? && !ev.EvApply?
    ensures var s', id := Step(s, ev), s.children[c].table;
            && c < |s'.children| && s'.children[c] == s.children[c] && t < |s'.txns|
            && s'.txns[t].state == s.txns[t].state && s'.txns[t].commit == s.txns[t].commit
            && id < |s'.entries| && s'.entries[id].createAt == s.entries[id].createAt && s'.entries[id].deleteAt == s.entries[id].deleteAt
  {
    if ev.EvDrop? {
      LookupInRange(s, ev.t, ev.name);
    }
  }

  lemma StepFate(s: State, ev: Event, c: nat, t: nat)
    requires Inv(s) && Enabled(s, ev) && Fate(s, c, t)
    ensures Fate(Step(s, ev), c, t) && SamePlace(s, Step(s, ev), c)
  {
    if ev.EvPrepare? {
      PrepareFate(s, c, t);
    } else if ev.EvApply? {
      ApplyFate(s, c, t);
    } else {
      OtherFate(s, ev, c, t);
    }
  }

  /** Along every run: what a transaction makes under a table is there for good, and at every
      later point it is stamped with the transaction's timestamp exactly if the transaction
      got through. */
  lemma {:induction false} ChildFate(states: seq<State>, evs: seq<Event>, i: nat, k: nat)
    requires Run(states, evs) && Inv(states[0]) && i < k < |states| && evs[i].EvChild?
    requires evs[i].table < |states[i].entries| && (evs[i].segment.Some? ==> IsSegmentOf(states[i], evs[i].segment.value, evs[i].table))
    ensures var c, t := |states[i].children|, evs[i].t;
            && Fate(states[k], c, t) && states[k].children[c].table == evs[i].table && states[k].children[c].segment == evs[i].segment
    decreases k
  {
    if k == i + 1 {
      RunKeeps(states, evs, i);
      NewChild(states[i], evs[i]);
    } else {
      ChildFate(states, evs, i, k - 1);
      NextFate(states, evs, k - 1, |states[i].children|, evs[i].t);
    }
  }

  lemma NextFate(states: seq<State>, evs: seq<Event>, k: nat, c: nat, t: nat)
    requires Run(states, evs) && Inv(states[0]) && k < |evs| && Fate(states[k], c, t)
    ensures Fate(states[k + 1], c, t) && SamePlace(states[k], states[k + 1], c)
  {
    RunKeeps(states, evs, k);
    StepFate(states[k], evs[k], c, t);
  }

  lemma NewChild(s: State, ev: Event)
    requires Inv(s) && Enabled(s, ev) && ev.EvChild? && ev.table < |s.entries|
    requires ev.segment.Some? ==> IsSegmentOf(s, ev.segment.value, ev.table)
    ensures var s' := Step(s, ev);
            && Fate(s', |s.children|, ev.t) && s'.children[|s.children|].table == ev.table && s'.children[|s.children|].segment == ev.segment
  {
    StepKeeps(s, ev);
    WhenAdded(s, ev);
  }

  /** When the queues are empty: what a committed transaction made is stamped with its
      timestamp, and what a rolled-back one made is not. */
  lemma DrainedChildren(states: seq<State>, evs: seq<Event>, i: nat, k: nat)
    requires Run(states, evs) && Inv(states[0]) && i < k < |states| && evs[i].EvChild? && states[k].received == [] && states[k].prepared == []
    requires evs[i].table < |states[i].entries| && (evs[i].segment.Some? ==> IsSegmentOf(states[i], evs[i].segment.value, evs[i].table))
    ensures var s, c, t := states[k], |states[i].children|, evs[i].t;
            && t < |s.txns| && c < |s.children|
            && (s.txns[t].state.Committed? ==> Some(s.children[c].createAt) == s.txns[t].commit)
            && (s.txns[t].submitted && !s.txns[t].state.Committed? ==> s.txns[t].state.Rollbacked? && s.children[c].createAt == 0)
  {
    ChildFate(states, evs, i, k);
    DrainedMeansFinal(states, evs, k, evs[i].t);
  }

  // ----- the read set -----

  /** The keys that making a segment, or a block of a segment, records as read. */
  ghost function ReadBy(db: nat, child: Child): set<seq<byte>> {
    var above := {EncodeDB(db), EncodeTable(db, child.table)};
    if child.segment.Some? then above + {EncodeSegment(db, child.table, child.segment.value)} else above
  }

  /** Some child of the transaction accounts for the key. */
  ghost predicate Read(s: State, t: nat, key: seq<byte>) {
    exists c :: 0 <= c < |s.children| && s.children[c].txn == Some(t) && key in ReadBy(s.db, s.children[c])
  }

  /** The transaction's read set is what its segments and blocks account for, and the database
      if the transaction has touched any table. */
  ghost predicate ReadSetOk(s: State, t: nat)
    requires t < |s.txns|
  {
    && (forall key {:trigger Read(s, t, key)} :: key in s.txns[t].symbols ==> key == EncodeDB(s.db) || Read(s, t, key))
    && (forall key {:trigger Read(s, t, key)} :: Read(s, t, key) ==> key in s.txns[t].symbols)
    && (EncodeDB(s.db) in s.txns[t].symbols <==> s.txns[t].tables != map[])
  }

  /** This holds as long as a transaction has no timestamp. */
  ghost predicate ReadsOk(s: State) {
    && (forall c {:trigger s.children[c].txn} :: 0 <= c < |s.children| && s.children[c].txn.Some? ==> s.children[c].txn.value < |s.txns|)
    && (forall t {:trigger ReadSetOk(s, t)} :: 0 <= t < |s.txns| && s.txns[t].state.Active? ==> ReadSetOk(s, t))
  }

  lemma InitReads(db: nat)
    ensures ReadsOk(Init(db))
  {
  }

  /** Nothing more is recorded, or a table and the database. */
  ghost predicate TouchedMore(txn: Txn, txn': Txn, db: seq<byte>) {
    || (txn'.symbols == txn.symbols && txn'.tables == txn.tables)
    || (txn'.symbols == txn.symbols + {db} && txn'.tables != map[])
  }

  /** The transaction's children and read set stay, but for the database. */
  lemma ReadSetFrame(s: State, s': State, t: nat)
    requires t < |s.txns| && t < |s'.txns| && ReadSetOk(s, t) && s'.db == s.db && |s'.children| == |s.children|
    requires forall c :: 0 <= c < |s.children| ==>
               && s'.children[c].table == s.children[c].table && s'.children[c].segment == s.children[c].segment
               && (s'.children[c].txn == Some(t) <==> s.children[c].txn == Some(t))
    requires TouchedMore(s.txns[t], s'.txns[t], EncodeDB(s.db))
    ensures ReadSetOk(s', t)
  {
    forall key ensures Read(s', t, key) <==> Read(s, t, key) {
      if Read(s, t, key) {
        var c :| 0 <= c < |s.children| && s.children[c].txn == Some(t) && key in ReadBy(s.db, s.children[c]);
        assert s'.children[c].txn == Some(t) && key in ReadBy(s'.db, s'.children[c]);
      }
    }
  }

  lemma ChildReads(s: State, u: nat, table: nat, segment: Option<nat>)
    requires Shape(s) && ReadsOk(s) && Acting(s, u)
    ensures ReadsOk(CreateChild(s, u, table, segment))
  {
    var s' := CreateChild(s, u, table, segment);
    if s' != s {
      forall t | 0 <= t < |s'.txns| && s'.txns[t].state.Active? ensures ReadSetOk(s', t) {
        assert ReadSetOk(s, t);
        NewRead(s, s', Child(table, segment, Some(u), 0), t);
      }
    }
  }

  lemma NewRead(s: State, s': State, child: Child, t: nat)
    requires t < |s.txns| && t < |s'.txns| && ReadSetOk(s, t) && s'.db == s.db && s'.children == s.children + [child]
    requires s'.txns[t].symbols == s.txns[t].symbols + if child.txn == Some(t) then ReadBy(s.db, child) else {}
    requires if child.txn == Some(t) then s'.txns[t].tables != map[] else s'.txns[t].tables == s.txns[t].tables
    ensures ReadSetOk(s', t)
  {
    forall key ensures Read(s', t, key) <==> Read(s, t, key) || (child.txn == Some(t) && key in ReadBy(s.db, child)) {
      if Read(s, t, key) {
        var c :| 0 <= c < |s.children| && s.children[c].txn == Some(t) && key in ReadBy(s.db, s.children[c]);
        assert s'.children[c] == s.children[c];
      }
      assert s'.children[|s.children|] == child;
    }
  }

  lemma StepReads(s: State, ev: Event)
    requires Inv(s) && ReadsOk(s) && Enabled(s, ev)
    ensures ReadsOk(Step(s, ev))
  {
    if ev.EvChild? {
      ChildReads(s, ev.t, ev.table, ev.segment);
    } else {
      var s' := Step(s, ev);
      StepSpares(s, ev);
      forall t | 0 <= t < |s'.txns| && s'.txns[t].state.Active? ensures ReadSetOk(s', t) {
        if t < |s.txns| {
          assert ReadSetOk(s, t);
          ReadSetFrame(s, s', t);
        } else {
          forall key ensures !Read(s', t, key) {
          }
        }
      }
    }
  }

  /** What a step other than a create of a segment or block leaves alone. */
  ghost predicate Spares(s: State, s': State) {
    && s'.db == s.db && |s'.children| == |s.children| && |s.txns| <= |s'.txns|
    && (forall c {:trigger s'.children[c]} :: 0 <= c < |s.children| ==>
          && s'.children[c].table == s.children[c].table && s'.children[c].segment == s.children[c].segment
          && (s'.children[c].txn == s.children[c].txn ||
                (s'.children[c].txn.None? && s.children[c].txn.Some? && s.children[c].txn.value < |s.txns| && !s'.txns[s.children[c].txn.value].state.Active?)))
    && (forall t {:trigger s'.txns[t]} :: 0 <= t < |s.txns| && s'.txns[t].state.Active? ==>
          && s.txns[t].state.Active?
          && TouchedMore(s.txns[t], s'.txns[t], EncodeDB(s.db)))
    && (forall t {:trigger s'.txns[t]} :: |s.txns| <= t < |s'.txns| ==> s'.txns[t].symbols == {} && s'.txns[t].tables == map[])
  }

  lemma StepSpares(s: State, ev: Event)
    requires Inv(s) && ReadsOk(s) && Enabled(s, ev) && !ev.EvChild?
    ensures Spares(s, Step(s, ev))
  {
    if ev.EvPrepare? {
      PrepareSpares(s);
    } else if ev.EvApply? {
      if s.prepared != [] {
        assert s.txns[s.prepared[0].txn].state == StateOf(s.prepared[0].request);
        ApplySpares(s);
      }
    } else if ev.EvDrop? {
      DropSpares(s, ev.t, ev.name);
    } else if ev.EvCreate? {
      CreateSpares(s, ev.t, ev.name);
    }
  }

  lemma CreateSpares(s: State, t: nat, name: string)
    requires Shape(s) && t < |s.txns|
    ensures Spares(s, CreateTable(s, t, name))
  {
    if MayCreate(s, t, name).Done? {
      assert |s.entries| in CreateTable(s, t, name).txns[t].tables;
    }
  }

  lemma DropSpares(s: State, t: nat, name: string)
    requires Shape(s) && t < |s.txns|
    ensures Spares(s, DropTable(s, t, name))
  {
    LookupInRange(s, t, name);
    if DropOutcome(s, t, name).Done? {
      assert Lookup(s, t, name).value in DropTable(s, t, name).txns[t].tables;
    }
  }

  lemma PrepareSpares(s: State)
    requires Inv(s)
    ensures Spares(s, Prepare(s))
  {
    if s.received != [] {
      var u := s.received[0].txn;
      assert NextUp(s, u);
      CommitShape(s, u);
      RollbackShape(s, u);
      forall c | 0 <= c < |s.children| ensures PrepareCommit(s, u).children[c] == StampChild(s.children[c], s.entries, u, s.clock + 1) {
      }
    }
  }

  lemma ApplySpares(s: State)
    requires Shape(s) && ReadsOk(s) && s.prepared != [] && s.txns[s.prepared[0].txn].state == StateOf(s.prepared[0].request)
    ensures Spares(s, Apply(s))
  {
    var op := s.prepared[0];
    if op.request.Commit? {
      forall c | 0 <= c < |s.children| ensures Apply(s).children[c] == SettleChild(s.children[c], s.entries, op.txn) {
      }
    }
  }

  lemma {:induction false} RunReads(states: seq<State>, evs: seq<Event>, k: nat)
    requires Run(states, evs) && k < |states| && Inv(states[0]) && ReadsOk(states[0])
    ensures ReadsOk(states[k])
  {
    if k > 0 {
      RunReads(states, evs, k - 1);
      RunKeeps(states, evs, k - 1);
      StepReads(states[k - 1], evs[k - 1]);
    }
  }

  // ----- when a commit is refused -----

  lemma KindOf(db: nat, table: nat, segment: nat)
    requires db < UINT64 && table < UINT64
    ensures Decode(EncodeDB(db)).kind == KIND_DB && Decode(EncodeSegment(db, table, segment)).kind == KIND_SEGMENT
    ensures Decode(EncodeTable(db, table)) == Key(KIND_TABLE, db, table, 0, 0)
  {
    DecodeEncoded(db, table, 0, 0);
  }

  /** A transaction has made something under a table that is deleted. */
  ghost predicate UnderDeleted(s: State, t: nat, c: int)
    requires Shape(s)
  {
    0 <= c < |s.children| && s.children[c].txn == Some(t) && s.entries[s.children[c].table].deleteAt != 0
  }

  lemma DeletedCollides(s: State, id: nat)
    requires Inv(s) && id < |s.entries|
    ensures Collides(s, EncodeTable(s.db, id), s.clock + 1) <==> s.entries[id].deleteAt != 0
  {
    KindOf(s.db, id, 0);
    assert EntryOk(s, id);
  }

  lemma ReadCollides(s: State, child: Child, key: seq<byte>)
    requires Inv(s) && child.table < |s.entries| && key in ReadBy(s.db, child) && Collides(s, key, s.clock + 1)
    ensures s.entries[child.table].deleteAt != 0
  {
    KindOf(s.db, child.table, if child.segment.Some? then child.segment.value else 0);
    DeletedCollides(s, child.table);
  }

  lemma CollisionIsChild(s: State, t: nat, key: seq<byte>) returns (c: nat)
    requires Inv(s) && t < |s.txns| && ReadSetOk(s, t) && key in s.txns[t].symbols && Collides(s, key, s.clock + 1)
    ensures UnderDeleted(s, t, c)
  {
    KindOf(s.db, 0, 0);
    assert Read(s, t, key);
    c :| 0 <= c < |s.children| && s.children[c].txn == Some(t) && key in ReadBy(s.db, s.children[c]);
    ReadCollides(s, s.children[c], key);
  }

  lemma ChildCollides(s: State, t: nat, c: nat)
    requires Inv(s) && t < |s.txns| && ReadSetOk(s, t) && UnderDeleted(s, t, c)
    ensures CheckFails(s, t, s.clock + 1)
  {
    var key := EncodeTable(s.db, s.children[c].table);
    assert key in ReadBy(s.db, s.children[c]);
    assert Read(s, t, key);
    DeletedCollides(s, s.children[c].table);
  }

  /** The check fails exactly if the transaction has made a segment or block under a table
      that has been deleted. */
  lemma CheckFailsIff(s: State, t: nat)
    requires Inv(s) && ReadsOk(s) && Acting(s, t)
    ensures CheckFails(s, t, s.clock + 1) <==> exists c :: UnderDeleted(s, t, c)
  {
    assert ReadSetOk(s, t);
    if CheckFails(s, t, s.clock + 1) {
      var key :| key in s.txns[t].symbols && Collides(s, key, s.clock + 1);
      var c := CollisionIsChild(s, t, key);
    }
    if c :| UnderDeleted(s, t, c) {
      ChildCollides(s, t, c);
    }
  }

  lemma PreparedTxn(s: State)
    requires Shape(s) && s.received != [] && s.txns[s.received[0].txn].state.Active? && TxnOk(s.txns[s.received[0].txn], s.clock)
    ensures s.received[0].txn < |Prepare(s).txns|
    ensures var op := s.received[0];
            var refused := op.request.Rollback? || CheckFails(s, op.txn, s.clock + 1);
            Prepare(s).txns[op.txn] == s.txns[op.txn].(commit := Some(s.clock + 1), state := if refused then Rollbacking else Committing)
  {
  }

  /** In every run the next request gets the next timestamp, and it is turned down exactly if
      it asks for that or has made something under a deleted table. */
  lemma CommitRefusedIff(states: seq<State>, evs: seq<Event>, k: nat)
    requires Run(states, evs) && k < |evs| && Inv(states[0]) && ReadsOk(states[0]) && evs[k] == EvPrepare && states[k].received != []
    ensures Shape(states[k]) && states[k].received[0].txn < |states[k + 1].txns|
    ensures var s, op := states[k], states[k].received[0];
            var refused := op.request.Rollback? || exists c :: UnderDeleted(s, op.txn, c);
            states[k + 1].txns[op.txn] ==
              s.txns[op.txn].(commit := Some(s.clock + 1), state := if refused then Rollbacking else Committing)
  {
    RunKeeps(states, evs, k);
    RunReads(states, evs, k);
    var s, t := states[k], states[k].received[0].txn;
    assert states[k + 1] == Step(s, evs[k]) == Prepare(s);
    assert NextUp(s, t) && TxnOk(s.txns[t], s.clock);
    CheckFailsIff(s, t);
    PreparedTxn(s);
  }
}
