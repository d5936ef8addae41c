/** The object behind a catalog command: references to entries, some of which may be missing. */
module EntryCommands {
  import opened Options
  import opened Wire
  import opened Commands

  datatype BaseEntry = BaseEntry(id: u64, createAt: u64, deleteAt: u64)

  datatype DBEntry = DBEntry(base: BaseEntry, name: seq<byte>)

  datatype TableEntry = TableEntry(base: BaseEntry, db: Option<DBEntry>, schema: Option<Schema>)

  datatype SegmentEntry = SegmentEntry(base: BaseEntry)

  datatype EntryCmd = EntryCmd(
    cmdType: u16, id: u32, entry: BaseEntry, db: Option<DBEntry>, table: Option<TableEntry>, segment: Option<SegmentEntry>)

  predicate IsEntry(c: Command) {
    !c.Pointer? && !c.Composed?
  }

  /** What the writer puts out for the object: the fields of a command, or nothing if it
      follows a reference that is not set. */
  function Writes(o: EntryCmd): Option<Command> {
    if o.cmdType == 256 then
      if o.db.None? then None else Some(CreateDatabase(o.id, o.entry.id, o.entry.createAt, o.db.value.name))
    else if o.cmdType == 257 then Some(DropDatabase(o.id, o.entry.id, o.entry.deleteAt))
    else if o.cmdType == 258 then
      if o.table.None? || o.table.value.db.None? || o.table.value.schema.None? then None
      else Some(CreateTable(o.id, o.entry.id, o.table.value.db.value.base.id, o.entry.createAt, o.table.value.schema.value))
    else if o.cmdType == 259 then
      if o.table.None? || o.table.value.db.None? then None
      else Some(DropTable(o.id, o.entry.id, o.table.value.db.value.base.id, o.entry.deleteAt))
    else if o.cmdType == 260 then
      if o.db.None? || o.table.None? then None
      else Some(CreateSegment(o.id, o.entry.id, o.db.value.base.id, o.table.value.base.id, o.entry.createAt))
    else if o.cmdType == 261 then Some(DropSegment(o.id, o.entry.id))
    else if o.cmdType == 262 then
      if o.db.None? || o.table.None? || o.segment.None? then None
      else Some(CreateBlock(o.id, o.entry.id, o.db.value.base.id, o.table.value.base.id, o.segment.value.base.id, o.entry.createAt))
    else Some(DropBlock(o.id, o.entry.id))
  }

  function Bare(id: u64): BaseEntry { BaseEntry(id, 0, 0) }

  // ----- objects made from catalog entries -----

  function NewDBCmd(id: u32, t: u16, db: DBEntry): EntryCmd {
    EntryCmd(t, id, db.base, Some(db), None, None)
  }

  function NewTableCmd(id: u32, t: u16, table: TableEntry): EntryCmd {
    EntryCmd(t, id, table.base, table.db, Some(table), None)
  }

  function NewSegmentCmd(id: u32, t: u16, segment: SegmentEntry, table: TableEntry): EntryCmd {
    EntryCmd(t, id, segment.base, table.db, Some(table), Some(segment))
  }

  function NewBlockCmd(id: u32, t: u16, block: BaseEntry, segment: SegmentEntry, table: TableEntry): EntryCmd {
    EntryCmd(t, id, block, table.db, Some(table), Some(segment))
  }

  /** A table of the catalog, which knows its database and its schema. */
  function TableOf(base: BaseEntry, db: u64, schema: Schema): TableEntry {
    TableEntry(base, Some(DBEntry(Bare(db), [])), Some(schema))
  }

  const NO_SCHEMA := Schema(0, 0, 0, [], [])

  /** An object for the command, made from catalog entries. */
  function Made(c: Command): EntryCmd
    requires IsEntry(c)
  {
    match c
    case CreateDatabase(id, entry, createAt, name) => NewDBCmd(id, 256, DBEntry(BaseEntry(entry, createAt, 0), name))
    case DropDatabase(id, entry, deleteAt) => NewDBCmd(id, 257, DBEntry(BaseEntry(entry, 0, deleteAt), []))
    case CreateTable(id, entry, db, createAt, schema) => NewTableCmd(id, 258, TableOf(BaseEntry(entry, createAt, 0), db, schema))
    case DropTable(id, entry, db, deleteAt) => NewTableCmd(id, 259, TableOf(BaseEntry(entry, 0, deleteAt), db, NO_SCHEMA))
    case CreateSegment(id, entry, db, table, createAt) =>
      NewSegmentCmd(id, 260, SegmentEntry(BaseEntry(entry, createAt, 0)), TableOf(Bare(table), db, NO_SCHEMA))
    case DropSegment(id, entry) => NewSegmentCmd(id, 261, SegmentEntry(Bare(entry)), TableOf(Bare(0), 0, NO_SCHEMA))
    case CreateBlock(id, entry, db, table, segment, createAt) =>
      NewBlockCmd(id, 262, BaseEntry(entry, createAt, 0), SegmentEntry(Bare(segment)), TableOf(Bare(table), db, NO_SCHEMA))
    case DropBlock(id, entry) => NewBlockCmd(id, 263, Bare(entry), SegmentEntry(Bare(0)), TableOf(Bare(0), 0, NO_SCHEMA))
  }

  // ----- objects that were read -----

  /** The object that the reader leaves for a record of the command: a table without its
      database, or no table at all, and the block's own entry as its segment. */
  function Filled(c: Command): EntryCmd
    requires IsEntry(c)
  {
    var db := (id: u64) => Some(DBEntry(Bare(id), []));
    match c
    case CreateDatabase(id, entry, createAt, name) =>
      var base := BaseEntry(entry, createAt, 0);
      EntryCmd(256, id, base, Some(DBEntry(base, name)), None, None)
    case DropDatabase(id, entry, deleteAt) => EntryCmd(257, id, BaseEntry(entry, 0, deleteAt), None, None, None)
    case CreateTable(id, entry, d, createAt, schema) =>
      var base := BaseEntry(entry, createAt, 0);
      EntryCmd(258, id, base, db(d), Some(TableEntry(base, None, Some(schema))), None)
    case DropTable(id, entry, d, deleteAt) => EntryCmd(259, id, BaseEntry(entry, 0, deleteAt), db(d), None, None)
    case CreateSegment(id, entry, d, t, createAt) =>
      var base := BaseEntry(entry, createAt, 0);
      EntryCmd(260, id, base, db(d), Some(TableEntry(Bare(t), None, None)), Some(SegmentEntry(base)))
    case DropSegment(id, entry) => EntryCmd(261, id, Bare(entry), None, None, None)
    case CreateBlock(id, entry, d, t, _, createAt) =>
      var base := BaseEntry(entry, createAt, 0);
      EntryCmd(262, id, base, db(d), Some(TableEntry(Bare(t), None, None)), Some(SegmentEntry(base)))
    case DropBlock(id, entry) => EntryCmd(263, id, Bare(entry), None, None, None)
  }

  function DbId(o: EntryCmd): u64 { if o.db.Some? then o.db.value.base.id else 0 }

  /** The command that an object which was read stands for. */
  function View(o: EntryCmd): Command {
    if o.cmdType == 258 && o.table.Some? && o.table.value.schema.Some? then
      CreateTable(o.id, o.entry.id, DbId(o), o.entry.createAt, o.table.value.schema.value)
    else if o.cmdType == 259 then DropTable(o.id, o.entry.id, DbId(o), o.entry.deleteAt)
    else if Writes(o).Some? then Writes(o).value
    else DropBlock(o.id, o.entry.id)
  }

  /** What is made from catalog entries can be written, and gives the command. */
  lemma MadeIsWritten(c: Command)
    requires IsEntry(c)
    ensures Writes(Made(c)) == Some(c)
  {
  }

  /** An object that was read is written again, with the block's own id as its segment,
      exactly if it is not of a table. */
  lemma FilledIsWrittenIff(c: Command)
    requires IsEntry(c)
    ensures Writes(Filled(c)) == if c.CreateTable? || c.DropTable? then None else Some(Reread(c))
    ensures View(Filled(c)) == Reread(c)
  {
  }

  /** A create-table or drop-table command is somewhere in the tree. */
  predicate HasTable(c: Command) {
    match c
    case Composed(cmds) => exists i :: 0 <= i < |cmds| && HasTable(cmds[i])
    case CreateTable(_, _, _, _, _) => true
    case DropTable(_, _, _, _) => true
    case _ => false
  }

  /** The writer finds every reference it follows in the objects of a tree that was read. */
  predicate Rewritable(c: Command) {
    match c
    case Composed(cmds) => forall i :: 0 <= i < |cmds| ==> Rewritable(cmds[i])
    case Pointer(_, _) => true
    case _ => Writes(Filled(c)).Some?
  }

  /** Writing a tree that was read fails exactly if a table command is in it. */
  lemma {:induction false} RewritableIff(c: Command)
    ensures Rewritable(c) <==> !HasTable(c)
  {
    match c
    case Composed(cmds) =>
      forall i | 0 <= i < |cmds| ensures Rewritable(cmds[i]) <==> !HasTable(cmds[i]) {
        RewritableIff(cmds[i]);
      }
    case Pointer(_, _) =>
    case _ => FilledIsWrittenIff(c);
  }

  lemma {:induction false} RereadAt(cmds: seq<Command>, i: nat)
    requires i < |cmds|
    ensures RereadAll(cmds)[i] == Reread(cmds[i])
  {
    if i > 0 {
      RereadAt(cmds[1..], i - 1);
    }
  }
}
