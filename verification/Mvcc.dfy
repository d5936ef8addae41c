/** The versioned table catalog of one database and the transaction pipeline that stamps
    it: what each step of a transaction does to the shared state. A lock section of the
    original is one step; so is the preparation of one transaction, and so is its
    application together with the final state change. */
module Mvcc {
  import opened Options
  import opened Keys
  import opened Wire

  datatype Op = Create | SoftDelete

  datatype TxnState = Active | Committing | Rollbacking | Committed | Rollbacked

  datatype Request = Commit | Rollback

  /** What a transaction did to one table. */
  datatype TxnTable = TxnTable(created: bool, dropped: bool)

  /** commit is the commit timestamp; None is the source's all-ones "uncommitted" value. */
  datatype Txn = Txn(
    start: nat,
    commit: Option<nat>,
    state: TxnState,
    submitted: bool,
    tables: map<nat, TxnTable>,
    symbols: set<seq<byte>>)
  {
    /** The state changes of a transaction. A refused change leaves it as it is; ts not
        above start is a panic. */
    predicate CanCommit(ts: nat) { start < ts && commit.None? }
    predicate CanRollback(ts: nat) { start < ts && (state.Active? || state.Committing?) }

    function ToCommitting(ts: nat): Txn {
      if CanCommit(ts) then this.(commit := Some(ts), state := Committing) else this
    }

    function ToRollbacking(ts: nat): Txn {
      if CanRollback(ts) then this.(commit := Some(ts), state := Rollbacking) else this
    }

    function Finish(): Txn {
      if state.Committing? then this.(state := Committed)
      else if state.Rollbacking? then this.(state := Rollbacked)
      else this
    }
  }

  /** A version of a table. A timestamp of 0 means "not yet". */
  datatype Entry = Entry(
    name: string,
    txn: Option<nat>,
    op: Op,
    prev: Option<Op>,
    createAt: nat,
    deleteAt: nat)
  {
    predicate CreateBefore(ts: nat) { createAt != 0 && createAt < ts }
    predicate CreateAfter(ts: nat) { createAt != 0 && createAt > ts }
    predicate DeleteBefore(ts: nat) { deleteAt != 0 && deleteAt < ts }
    predicate DeleteAfter(ts: nat) { deleteAt != 0 && deleteAt > ts }
    predicate HasCreated() { createAt != 0 }
    predicate HasDropped() { deleteAt != 0 }
    predicate CreateAndDropInSameTxn() { createAt != 0 && createAt == deleteAt }
    predicate IsDroppedUncommitted() { txn.Some? && op.SoftDelete? }

    function PrepareCommit(ts: nat): Entry {
      this.(createAt := if createAt == 0 then ts else createAt,
            deleteAt := if op.SoftDelete? then ts else deleteAt)
    }

    function PrepareRollback(): Entry {
      this.(op := if prev.Some? then prev.value else op, txn := None)
    }

    function ApplyCommit(): Entry {
      this.(prev := None, txn := None)
    }
  }

  /** A segment of a table, or a block of one of its segments. */
  datatype Child = Child(table: nat, segment: Option<nat>, txn: Option<nat>, createAt: nat)

  datatype OpTxn = OpTxn(txn: nat, request: Request)

  /** Transactions, entries and children are numbered by their position. names maps a
      table name to its versions, newest first. */
  datatype State = State(
    db: nat,
    clock: nat,
    txns: seq<Txn>,
    entries: seq<Entry>,
    names: map<string, seq<nat>>,
    children: seq<Child>,
    received: seq<OpTxn>,
    prepared: seq<OpTxn>)

  function Init(db: nat): State {
    State(db, 0, [], [], map[], [], [], [])
  }

  /** Well-typedness of the numbering; everything else is proved to be an invariant. */
  ghost predicate Shape(s: State) {
    && s.db < UINT64
    && (forall id {:trigger s.entries[id].txn} :: 0 <= id < |s.entries| && s.entries[id].txn.Some? ==> s.entries[id].txn.value < |s.txns|)
    && (forall name, i :: name in s.names && 0 <= i < |s.names[name]| ==> s.names[name][i] < |s.entries|)
    && (forall c {:trigger s.children[c].table} :: 0 <= c < |s.children| ==> s.children[c].table < |s.entries|)
    && (forall i {:trigger s.received[i].txn} :: 0 <= i < |s.received| ==> s.received[i].txn < |s.txns|)
    && (forall i {:trigger s.prepared[i].txn} :: 0 <= i < |s.prepared| ==> s.prepared[i].txn < |s.txns|)
    && (forall t, id {:trigger id in s.txns[t].tables} :: 0 <= t < |s.txns| && id in s.txns[t].tables ==> id < |s.entries|)
  }

  datatype Outcome = Done | NotFound | Duplicate | WriteConflict | Panic

  /** A transaction may still issue operations. */
  predicate Running(s: State, t: nat) {
    t < |s.txns| && !s.txns[t].submitted
  }

  /** A transaction may still create segments and blocks: the spill of its rows does so after
      the commit was requested, until it gets its timestamp. */
  predicate Acting(s: State, t: nat) {
    t < |s.txns| && s.txns[t].state.Active?
  }

  // ----- reading -----

  datatype Verdict = Skip | Stop | Found

  /** What the walk over a name's versions does at one of them. Waiting for a committing
      transaction yields the state read before the wait. */
  function Examine(s: State, r: nat, id: nat): Verdict
    requires Shape(s) && r < |s.txns| && id < |s.entries|
  {
    var e, start := s.entries[id], s.txns[r].start;
    if e.txn.Some? then
      var writer := s.txns[e.txn.value];
      if e.txn.value == r then
        if e.IsDroppedUncommitted() then Stop else Found
      else if !e.HasCreated() && !e.HasDropped() then Skip
      else if e.CreateBefore(start) then
        if writer.commit.None? then Found
        else if e.CreateAndDropInSameTxn() then Skip
        else if e.DeleteAfter(start) then Found
        else if writer.state.Rollbacked? then Found
        else Stop
      else Skip
    else if e.CreateAfter(start) then Skip
    else if e.DeleteBefore(start) then Stop
    else Found
  }

  /** The newest-first walk with its early stops. */
  function Walk(s: State, r: nat, versions: seq<nat>): Option<nat>
    requires Shape(s) && r < |s.txns|
    requires forall i :: 0 <= i < |versions| ==> versions[i] < |s.entries|
  {
    if versions == [] then None
    else match Examine(s, r, versions[0])
      case Skip => Walk(s, r, versions[1..])
      case Stop => None
      case Found => Some(versions[0])
  }

  function Lookup(s: State, r: nat, name: string): Option<nat>
    requires Shape(s) && r < |s.txns|
  {
    if name in s.names then Walk(s, r, s.names[name]) else None
  }

  /** The visibility test on a single entry. */
  predicate TxnCanRead(s: State, r: nat, id: nat)
    requires Shape(s) && r < |s.txns| && id < |s.entries|
  {
    var e, start := s.entries[id], s.txns[r].start;
    if e.txn.None? then !e.CreateAfter(start) && !e.DeleteBefore(start)
    else if e.txn.value == r then !e.IsDroppedUncommitted()
    else if !e.HasCreated() || e.CreateAfter(start) then false
    else if !e.HasDropped() || e.DeleteAfter(start) then true
    else
      var writer := s.txns[e.txn.value];
      writer.commit.Some? && !e.CreateAndDropInSameTxn() && writer.state.Rollbacked?
  }

  // ----- the steps -----

  function StartTxn(s: State): State {
    s.(clock := s.clock + 1,
       txns := s.txns + [Txn(s.clock + 1, None, Active, false, map[], {})])
  }

  /** Whether a transaction may put a new version on top of the newest one. A name whose
      list was emptied by rollbacks fails a type assertion. */
  function MayCreate(s: State, t: nat, name: string): Outcome
    requires Shape(s) && t < |s.txns|
  {
    if name !in s.names then Done
    else if s.names[name] == [] then Panic
    else
      var e := s.entries[s.names[name][0]];
      if e.txn.Some? && e.txn.value != t && s.txns[e.txn.value].commit.None? then WriteConflict
      else if e.txn.Some? then if e.IsDroppedUncommitted() then Done else Duplicate
      else if e.HasDropped() then Done
      else Duplicate
  }

  function CreateTable(s: State, t: nat, name: string): State
    requires Shape(s) && t < |s.txns|
  {
    if MayCreate(s, t, name) != Done then s
    else
      var id, txn := |s.entries|, s.txns[t];
      s.(entries := s.entries + [Entry(name, Some(t), Create, None, 0, 0)],
         names := s.names[name := [id] + if name in s.names then s.names[name] else []],
         txns := s.txns[t := txn.(tables := txn.tables[id := TxnTable(true, false)],
                                  symbols := txn.symbols + {EncodeDB(s.db)})])
  }

  /** Whether a transaction may mark an entry dropped. */
  function MayDrop(e: Entry, t: nat, start: nat): Outcome {
    if e.txn.None? then
      if e.HasDropped() then NotFound
      else if e.createAt > start then Panic
      else Done
    else if e.txn.value == t then
      if e.op.SoftDelete? then NotFound else Done
    else WriteConflict
  }

  function Dropped(e: Entry, t: nat): Entry {
    if e.txn.None? then e.(prev := Some(e.op), txn := Some(t), op := SoftDelete)
    else e.(op := SoftDelete)
  }

  function DropOutcome(s: State, t: nat, name: string): Outcome
    requires Shape(s) && t < |s.txns|
  {
    var found := Lookup(s, t, name);
    if found.None? then NotFound
    else LookupInRange(s, t, name); MayDrop(s.entries[found.value], t, s.txns[t].start)
  }

  function DropTable(s: State, t: nat, name: string): State
    requires Shape(s) && t < |s.txns|
  {
    if DropOutcome(s, t, name) != Done then s
    else
      LookupInRange(s, t, name);
      var id, txn := Lookup(s, t, name).value, s.txns[t];
      var created := id in txn.tables && txn.tables[id].created;
      s.(entries := s.entries[id := Dropped(s.entries[id], t)],
         txns := s.txns[t := txn.(tables := txn.tables[id := TxnTable(created, true)],
                                  symbols := txn.symbols + {EncodeDB(s.db)})])
  }

  /** Creates a segment under a table, or a block under one of its segments, and records
      the ancestors as read. Tables are found by number, whatever their visibility. */
  function CreateChild(s: State, t: nat, table: nat, segment: Option<nat>): State
    requires Shape(s) && t < |s.txns|
  {
    if table >= |s.entries| || (segment.Some? && !IsSegmentOf(s, segment.value, table)) then s
    else
      var txn := s.txns[t];
      var above := {EncodeDB(s.db), EncodeTable(s.db, table)};
      var keys := if segment.Some? then above + {EncodeSegment(s.db, table, segment.value)} else above;
      s.(children := s.children + [Child(table, segment, Some(t), 0)],
         txns := s.txns[t := txn.(
           tables := if table in txn.tables then txn.tables else txn.tables[table := TxnTable(false, false)],
           symbols := txn.symbols + keys)])
  }

  predicate IsSegmentOf(s: State, seg: nat, table: nat) {
    seg < |s.children| && s.children[seg].table == table && s.children[seg].segment.None?
  }

  function Submit(s: State, t: nat, request: Request): State
    requires t < |s.txns|
  {
    s.(txns := s.txns[t := s.txns[t].(submitted := true)],
       received := s.received + [OpTxn(t, request)])
  }

  /** Does a recorded read collide with a drop stamped before ts? Only tables can be
      dropped here; the database and the segments of the model stay. */
  predicate Collides(s: State, key: seq<byte>, ts: nat)
    requires Shape(s)
  {
    var k := Decode(key);
    k.kind == KIND_TABLE && k.table < |s.entries| &&
    var e := s.entries[k.table];
    e.DeleteBefore(ts) &&
    (e.txn.None? || s.txns[e.txn.value].commit.None? || !s.txns[e.txn.value].state.Rollbacked?)
  }

  ghost predicate CheckFails(s: State, t: nat, ts: nat)
    requires Shape(s) && t < |s.txns|
  {
    exists key :: key in s.txns[t].symbols && Collides(s, key, ts)
  }

  predicate Wrote(tables: map<nat, TxnTable>, id: nat) {
    id in tables && (tables[id].created || tables[id].dropped)
  }

  function StampEntry(e: Entry, id: nat, tables: map<nat, TxnTable>, ts: nat): Entry {
    if Wrote(tables, id) && !e.CreateAndDropInSameTxn() then e.PrepareCommit(ts) else e
  }

  function StampEntries(es: seq<Entry>, tables: map<nat, TxnTable>, ts: nat): (r: seq<Entry>)
    ensures |r| == |es| && forall i :: 0 <= i < |r| ==> r[i] == StampEntry(es[i], i, tables, ts)
  {
    seq(|es|, i requires 0 <= i < |es| => StampEntry(es[i], i, tables, ts))
  }

  function StampChild(c: Child, es: seq<Entry>, t: nat, ts: nat): Child
    requires c.table < |es|
  {
    if c.txn == Some(t) && c.createAt == 0 && !es[c.table].CreateAndDropInSameTxn() then c.(createAt := ts) else c
  }

  function StampChildren(cs: seq<Child>, es: seq<Entry>, t: nat, ts: nat): (r: seq<Child>)
    requires forall i :: 0 <= i < |cs| ==> cs[i].table < |es|
    ensures |r| == |cs| && forall i :: 0 <= i < |r| ==> r[i] == StampChild(cs[i], es, t, ts)
  {
    seq(|cs|, i requires 0 <= i < |cs| => StampChild(cs[i], es, t, ts))
  }

  /** The oldest received commit passed the read check: everything it wrote is stamped. */
  function PrepareCommit(s: State, t: nat): State
    requires Shape(s) && t < |s.txns| && s.received != []
  {
    var ts := s.clock + 1;
    s.(clock := ts,
       txns := s.txns[t := s.txns[t].ToCommitting(ts)],
       entries := StampEntries(s.entries, s.txns[t].tables, ts),
       children := StampChildren(s.children, s.entries, t, ts),
       received := s.received[1..],
       prepared := s.prepared + [OpTxn(t, Commit)])
  }

  function UnwindEntry(e: Entry, id: nat, tables: map<nat, TxnTable>): Entry {
    if Wrote(tables, id) then e.PrepareRollback() else e
  }

  function UnwindEntries(es: seq<Entry>, tables: map<nat, TxnTable>): (r: seq<Entry>)
    ensures |r| == |es| && forall i :: 0 <= i < |r| ==> r[i] == UnwindEntry(es[i], i, tables)
  {
    seq(|es|, i requires 0 <= i < |es| => UnwindEntry(es[i], i, tables))
  }

  /** A name list without the versions a transaction created. */
  function Unlist(versions: seq<nat>, tables: map<nat, TxnTable>): seq<nat> {
    if versions == [] then []
    else if versions[0] in tables && tables[versions[0]].created then Unlist(versions[1..], tables)
    else [versions[0]] + Unlist(versions[1..], tables)
  }

  /** A rollback, requested or forced by the read check: created versions leave their
      name lists, dropped ones get their previous operation back. */
  function PrepareRollback(s: State, t: nat): State
    requires Shape(s) && t < |s.txns| && s.received != []
  {
    var ts, tables := s.clock + 1, s.txns[t].tables;
    var committing := if s.received[0].request.Commit? then s.txns[t].ToCommitting(ts) else s.txns[t];
    s.(clock := ts,
       txns := s.txns[t := committing.ToRollbacking(ts)],
       entries := UnwindEntries(s.entries, tables),
       names := map name | name in s.names :: Unlist(s.names[name], tables),
       received := s.received[1..],
       prepared := s.prepared + [OpTxn(t, Rollback)])
  }

  ghost function Prepare(s: State): State
    requires Shape(s)
  {
    if s.received == [] then s
    else
      var op := s.received[0];
      if op.request.Commit? && !CheckFails(s, op.txn, s.clock + 1) then PrepareCommit(s, op.txn)
      else PrepareRollback(s, op.txn)
  }

  function SettleEntry(e: Entry, id: nat, tables: map<nat, TxnTable>): Entry {
    if Wrote(tables, id) && !e.CreateAndDropInSameTxn() then e.ApplyCommit() else e
  }

  function SettleEntries(es: seq<Entry>, tables: map<nat, TxnTable>): (r: seq<Entry>)
    ensures |r| == |es| && forall i :: 0 <= i < |r| ==> r[i] == SettleEntry(es[i], i, tables)
  {
    seq(|es|, i requires 0 <= i < |es| => SettleEntry(es[i], i, tables))
  }

  function SettleChild(c: Child, es: seq<Entry>, t: nat): Child
    requires c.table < |es|
  {
    if c.txn == Some(t) && !es[c.table].CreateAndDropInSameTxn() then c.(txn := None) else c
  }

  function SettleChildren(cs: seq<Child>, es: seq<Entry>, t: nat): (r: seq<Child>)
    requires forall i :: 0 <= i < |cs| ==> cs[i].table < |es|
    ensures |r| == |cs| && forall i :: 0 <= i < |r| ==> r[i] == SettleChild(cs[i], es, t)
  {
    seq(|cs|, i requires 0 <= i < |cs| => SettleChild(cs[i], es, t))
  }

  /** The oldest prepared transaction is applied and becomes final. A version created and
      dropped by the same transaction keeps its writer. */
  function Apply(s: State): State
    requires Shape(s)
  {
    if s.prepared == [] then s
    else
      var op := s.prepared[0];
      var txn := s.txns[op.txn];
      var done := s.(prepared := s.prepared[1..],
                     txns := s.txns[op.txn := txn.Finish()]);
      if op.request.Rollback? then done
      else done.(entries := SettleEntries(s.entries, txn.tables),
                 children := SettleChildren(s.children, s.entries, op.txn))
  }

  // ----- runs -----

  datatype Event =
    | EvStart
    | EvCreate(t: nat, name: string)
    | EvDrop(t: nat, name: string)
    | EvChild(t: nat, table: nat, segment: Option<nat>)
    | EvSubmit(t: nat, request: Request)
    | EvPrepare
    | EvApply

  /** An event a caller may cause: only a transaction that has not asked for its commit or
      rollback acts, save for the spill, and numbers are 64-bit. */
  predicate Enabled(s: State, ev: Event) {
    match ev
    case EvStart => true
    case EvCreate(t, _) => Running(s, t) && |s.entries| < UINT64 - 1
    case EvDrop(t, _) => Running(s, t)
    case EvChild(t, _, _) => Acting(s, t)
    case EvSubmit(t, _) => Running(s, t)
    case EvPrepare => true
    case EvApply => true
  }

  ghost function Step(s: State, ev: Event): State
    requires Shape(s) && Enabled(s, ev)
  {
    match ev
    case EvStart => StartTxn(s)
    case EvCreate(t, name) => CreateTable(s, t, name)
    case EvDrop(t, name) => DropTable(s, t, name)
    case EvChild(t, table, segment) => CreateChild(s, t, table, segment)
    case EvSubmit(t, request) => Submit(s, t, request)
    case EvPrepare => Prepare(s)
    case EvApply => Apply(s)
  }

  lemma {:induction false} WalkInRange(s: State, r: nat, versions: seq<nat>)
    requires Shape(s) && r < |s.txns|
    requires forall i :: 0 <= i < |versions| ==> versions[i] < |s.entries|
    ensures Walk(s, r, versions).Some? ==> Walk(s, r, versions).value in versions
  {
    if versions != [] {
      WalkInRange(s, r, versions[1..]);
    }
  }

  lemma LookupInRange(s: State, r: nat, name: string)
    requires Shape(s) && r < |s.txns|
    ensures Lookup(s, r, name).Some? ==> Lookup(s, r, name).value < |s.entries|
    ensures Lookup(s, r, name).Some? ==> name in s.names && Lookup(s, r, name).value in s.names[name]
  {
    if name in s.names {
      WalkInRange(s, r, s.names[name]);
    }
  }
}
