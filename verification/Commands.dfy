/** The log commands on the wire: pointers, catalog entries and trees of both. */
module Commands {
  import opened Wire

  type u16 = x: nat | x < UINT16
  type u32 = x: nat | x < UINT32
  type u64 = x: nat | x < UINT64
  type i32 = x: int | -0x8000_0000 <= x < 0x8000_0000

  /** Bytes of a column type as the engine stores it in memory. */
  const TYPE_SIZE: nat := 16

  type TypeBytes = b: seq<byte> | |b| == TYPE_SIZE witness seq(TYPE_SIZE, _ => 0)

  datatype Column = Column(typ: TypeBytes, name: seq<byte>)

  datatype Schema = Schema(blockMaxRows: u32, primaryKey: i32, segmentMaxBlocks: u16, name: seq<byte>, columns: seq<Column>)

  datatype Command =
    | Pointer(group: u32, lsn: u64)
    | Composed(cmds: seq<Command>)
    | CreateDatabase(id: u32, entry: u64, createAt: u64, name: seq<byte>)
    | DropDatabase(id: u32, entry: u64, deleteAt: u64)
    | CreateTable(id: u32, entry: u64, db: u64, createAt: u64, schema: Schema)
    | DropTable(id: u32, entry: u64, db: u64, deleteAt: u64)
    | CreateSegment(id: u32, entry: u64, db: u64, table: u64, createAt: u64)
    | DropSegment(id: u32, entry: u64)
    | CreateBlock(id: u32, entry: u64, db: u64, table: u64, segment: u64, createAt: u64)
    | DropBlock(id: u32, entry: u64)

  /* Writing */

  function Str(s: seq<byte>): seq<byte> {
    BigEndian(|s|, 2) + s
  }

  function Columns(cols: seq<Column>): seq<byte> {
    if cols == [] then [] else cols[0].typ + Str(cols[0].name) + Columns(cols[1..])
  }

  function Unsigned(x: i32): u32 {
    if x < 0 then x + UINT32 else x
  }

  function Signed(x: u32): i32 {
    if x < 0x8000_0000 then x else x - UINT32
  }

  function SchemaBytes(s: Schema): seq<byte> {
    BigEndian(s.blockMaxRows, 4) + BigEndian(Unsigned(s.primaryKey), 4) + BigEndian(s.segmentMaxBlocks, 2) +
    Str(s.name) + BigEndian(|s.columns|, 2) + Columns(s.columns)
  }

  function TypeOf(c: Command): u16 {
    match c
    case Pointer(_, _) => 0
    case Composed(_) => 6
    case CreateDatabase(_, _, _, _) => 256
    case DropDatabase(_, _, _) => 257
    case CreateTable(_, _, _, _, _) => 258
    case DropTable(_, _, _, _) => 259
    case CreateSegment(_, _, _, _, _) => 260
    case DropSegment(_, _) => 261
    case CreateBlock(_, _, _, _, _, _) => 262
    case DropBlock(_, _) => 263
  }

  function Encode(c: Command): (b: seq<byte>)
    ensures |b| >= 2
  {
    BigEndian(TypeOf(c), 2) + Body(c)
  }

  function Words(ws: seq<u64>): seq<byte> {
    if ws == [] then [] else BigEndian(ws[0], 8) + Words(ws[1..])
  }

  function Body(c: Command): seq<byte>
    decreases c, 0
  {
    match c
    case Pointer(group, lsn) => BigEndian(group, 4) + Words([lsn])
    case Composed(cmds) => BigEndian(|cmds|, 4) + EncodeAll(cmds)
    case CreateDatabase(id, entry, createAt, name) => BigEndian(id, 4) + Words([entry, createAt]) + Str(name)
    case DropDatabase(id, entry, deleteAt) => BigEndian(id, 4) + Words([entry, deleteAt])
    case CreateTable(id, entry, db, createAt, schema) => BigEndian(id, 4) + Words([entry, db, createAt]) + SchemaBytes(schema)
    case DropTable(id, entry, db, deleteAt) => BigEndian(id, 4) + Words([entry, db, deleteAt])
    case CreateSegment(id, entry, db, table, createAt) => BigEndian(id, 4) + Words([entry, db, table, createAt])
    case DropSegment(id, entry) => BigEndian(id, 4) + Words([entry])
    case CreateBlock(id, entry, db, table, segment, createAt) => BigEndian(id, 4) + Words([entry, db, table, segment, createAt])
    case DropBlock(id, entry) => BigEndian(id, 4) + Words([entry])
  }

  function EncodeAll(cmds: seq<Command>): seq<byte>
    decreases cmds, 1
  {
    if cmds == [] then [] else BigEndian(TypeOf(cmds[0]), 2) + Body(cmds[0]) + EncodeAll(cmds[1..])
  }

  /* Reading */

  /** NoFactory: the type is registered for no command. Foreign: it belongs to a command
      outside this model. */
  datatype Failure = Eof | NoFactory | Foreign

  datatype Read<+T> = Ok(value: T, rest: seq<byte>) | Err(why: Failure)

  function ReadNumber(b: seq<byte>, width: nat): (r: Read<nat>)
    ensures r.Ok? ==> |r.rest| + width == |b| && r.value < Pow256(width)
  {
    if |b| < width then Err(Eof) else BigEndianOfNumber(b[..width]); Ok(Number(b[..width]), b[width..])
  }

  /** A read into a buffer: it takes what there is, and only an empty stream is an error. What
      a short read does not reach keeps its old bytes. */
  function ReadInto(buf: seq<byte>, b: seq<byte>): (r: Read<seq<byte>>)
    ensures r.Ok? ==> |r.value| == |buf| && |r.rest| <= |b|
  {
    if buf == [] then Ok([], b)
    else if b == [] then Err(Eof)
    else if |b| < |buf| then Ok(b + buf[|b|..], [])
    else Ok(b[..|buf|], b[|buf|..])
  }

  function Zeros(n: nat): (z: seq<byte>)
    ensures |z| == n
  {
    seq(n, _ => 0)
  }

  function ReadStr(b: seq<byte>): (r: Read<seq<byte>>)
    ensures r.Ok? ==> |r.rest| <= |b|
  {
    match ReadNumber(b, 2)
    case Err(why) => Err(why)
    case Ok(n, rest) => ReadInto(Zeros(n), rest)
  }

  /** The column loop; buf is the one buffer all column types are read into. */
  function ReadColumns(n: nat, buf: TypeBytes, b: seq<byte>): (r: Read<seq<Column>>)
    ensures r.Ok? ==> |r.value| == n && |r.rest| <= |b|
  {
    if n == 0 then Ok([], b) else
    match ReadInto(buf, b)
    case Err(why) => Err(why)
    case Ok(typ, rest) =>
      match ReadStr(rest)
      case Err(why) => Err(why)
      case Ok(name, rest2) =>
        match ReadColumns(n - 1, typ, rest2)
        case Err(why) => Err(why)
        case Ok(cols, rest3) => Ok([Column(typ, name)] + cols, rest3)
  }

  function ReadWords(n: nat, b: seq<byte>): (r: Read<seq<u64>>)
    ensures r.Ok? ==> |r.value| == n && |r.rest| + 8 * n == |b|
    ensures r.Err? ==> r.why == Eof
  {
    if n == 0 then Ok([], b) else
    match ReadNumber(b, 8)
    case Err(why) => Err(why)
    case Ok(w, rest) =>
      Powers();
      match ReadWords(n - 1, rest)
      case Err(why) => Err(why)
      case Ok(ws, rest2) => Ok([w] + ws, rest2)
  }

  function ReadSchema(b: seq<byte>): (r: Read<Schema>)
    ensures r.Ok? ==> |r.rest| <= |b|
  {
    Powers();
    match ReadNumber(b, 4)
    case Err(why) => Err(why)
    case Ok(rows, b1) =>
      match ReadNumber(b1, 4)
      case Err(why) => Err(why)
      case Ok(key, b2) =>
        match ReadNumber(b2, 2)
        case Err(why) => Err(why)
        case Ok(blocks, b3) => ReadNames(rows, Signed(key), blocks, b3)
  }

  /** The schema's name and columns, after its numbers. */
  function ReadNames(rows: u32, key: i32, blocks: u16, b: seq<byte>): (r: Read<Schema>)
    ensures r.Ok? ==> |r.rest| <= |b|
  {
    match ReadStr(b)
    case Err(why) => Err(why)
    case Ok(name, b1) =>
      match ReadNumber(b1, 2)
      case Err(why) => Err(why)
      case Ok(count, b2) =>
        match ReadColumns(count, Zeros(TYPE_SIZE), b2)
        case Err(why) => Err(why)
        case Ok(columns, b3) => Ok(Schema(rows, key, blocks, name, columns), b3)
  }

  /** How many 8-byte fields an entry command has after its id, the entry's own id first. */
  function WordCount(t: nat): nat
    requires 256 <= t <= 263
  {
    [2, 2, 3, 3, 4, 1, 5, 1][t - 256]
  }

  /** What follows the 8-byte fields of an entry command, and the command they make. A
      create-block command comes back with its own id in place of its segment's. */
  function ReadTail(t: nat, id: u32, ws: seq<u64>, b: seq<byte>): (r: Read<Command>)
    requires 256 <= t <= 263 && |ws| == WordCount(t)
    ensures r.Ok? ==> |r.rest| <= |b|
  {
    if t == 256 then
      match ReadStr(b)
      case Err(why) => Err(why)
      case Ok(name, rest) => Ok(CreateDatabase(id, ws[0], ws[1], name), rest)
    else if t == 257 then Ok(DropDatabase(id, ws[0], ws[1]), b)
    else if t == 258 then
      match ReadSchema(b)
      case Err(why) => Err(why)
      case Ok(schema, rest) => Ok(CreateTable(id, ws[0], ws[1], ws[2], schema), rest)
    else if t == 259 then Ok(DropTable(id, ws[0], ws[1], ws[2]), b)
    else if t == 260 then Ok(CreateSegment(id, ws[0], ws[1], ws[2], ws[3]), b)
    else if t == 261 then Ok(DropSegment(id, ws[0]), b)
    else if t == 262 then Ok(CreateBlock(id, ws[0], ws[1], ws[2], ws[0], ws[4]), b)
    else Ok(DropBlock(id, ws[0]), b)
  }

  function ReadEntry(t: nat, b: seq<byte>): (r: Read<Command>)
    requires 256 <= t <= 263
    ensures r.Ok? ==> |r.rest| <= |b|
  {
    Powers();
    match ReadNumber(b, 4)
    case Err(why) => Err(why)
    case Ok(id, rest) =>
      match ReadWords(WordCount(t), rest)
      case Err(why) => Err(why)
      case Ok(ws, rest2) => ReadTail(t, id, ws, rest2)
  }

  function ReadPointer(b: seq<byte>): (r: Read<Command>)
    ensures r.Ok? ==> |r.rest| <= |b|
  {
    Powers();
    match ReadNumber(b, 4)
    case Err(why) => Err(why)
    case Ok(group, rest) =>
      match ReadWords(1, rest)
      case Err(why) => Err(why)
      case Ok(ws, rest2) => Ok(Pointer(group, ws[0]), rest2)
  }

  /** The command the stream starts with. */
  function Build(b: seq<byte>): (r: Read<Command>)
    ensures r.Ok? ==> |r.rest| < |b|
    decreases |b|, 0
  {
    match ReadNumber(b, 2)
    case Err(why) => Err(why)
    case Ok(t, rest) =>
      if t == 0 then ReadPointer(rest)
      else if t == 6 then
        match ReadNumber(rest, 4)
        case Err(why) => Err(why)
        case Ok(n, rest2) =>
          match BuildMany(n, rest2)
          case Err(why) => Err(why)
          case Ok(cmds, rest3) => Ok(Composed(cmds), rest3)
      else if 256 <= t <= 263 then ReadEntry(t, rest)
      else if t in {1, 2, 4, 7} then Err(Foreign)
      else Err(NoFactory)
  }

  function BuildMany(n: nat, b: seq<byte>): (r: Read<seq<Command>>)
    ensures r.Ok? ==> |r.value| == n && |r.rest| <= |b|
    decreases |b|, 1, n
  {
    if n == 0 then Ok([], b) else
    match Build(b)
    case Err(why) => Err(why)
    case Ok(c, rest) =>
      match BuildMany(n - 1, rest)
      case Err(why) => Err(why)
      case Ok(cs, rest2) => Ok([c] + cs, rest2)
  }

  /* The round trip */

  /** Every length fits the field that carries it. */
  predicate Encodable(c: Command) {
    match c
    case Composed(cmds) => |cmds| < UINT32 && forall i :: 0 <= i < |cmds| ==> Encodable(cmds[i])
    case CreateDatabase(_, _, _, name) => |name| < UINT16
    case CreateTable(_, _, _, _, schema) => SchemaFits(schema)
    case _ => true
  }

  predicate SchemaFits(s: Schema) {
    |s.name| < UINT16 && |s.columns| < UINT16 && NamesFit(s.columns)
  }

  predicate NamesFit(cols: seq<Column>) {
    forall i :: 0 <= i < |cols| ==> |cols[i].name| < UINT16
  }

  /** No create-block command anywhere in the tree names a segment other than itself. */
  predicate KeepsSegments(c: Command) {
    match c
    case Composed(cmds) => forall i :: 0 <= i < |cmds| ==> KeepsSegments(cmds[i])
    case CreateBlock(_, entry, _, _, segment, _) => segment == entry
    case _ => true
  }

  /** The command as the reader returns it. */
  function Reread(c: Command): Command
    decreases c, 0
  {
    match c
    case Composed(cmds) => Composed(RereadAll(cmds))
    case CreateBlock(id, entry, db, table, _, createAt) => CreateBlock(id, entry, db, table, entry, createAt)
    case _ => c
  }

  function RereadAll(cmds: seq<Command>): (r: seq<Command>)
    ensures |r| == |cmds|
    decreases cmds, 1
  {
    if cmds == [] then [] else [Reread(cmds[0])] + RereadAll(cmds[1..])
  }

  lemma NumberBack(x: nat, width: nat, rest: seq<byte>)
    requires x < Pow256(width)
    ensures ReadNumber(BigEndian(x, width) + rest, width) == Ok(x, rest)
  {
    NumberOfBigEndian(x, width);
    assert (BigEndian(x, width) + rest)[..width] == BigEndian(x, width);
  }

  lemma {:induction false} WordsBack(ws: seq<u64>, rest: seq<byte>)
    ensures ReadWords(|ws|, Words(ws) + rest) == Ok(ws, rest)
  {
    if ws != [] {
      WordsBack(ws[1..], rest);
      FirstWordBack(ws[0], |ws| - 1, ws[1..], Words(ws[1..]) + rest, rest);
      assert Words(ws) + rest == BigEndian(ws[0], 8) + (Words(ws[1..]) + rest);
      assert [ws[0]] + ws[1..] == ws;
    } else {
      assert Words(ws) + rest == rest;
    }
  }

  lemma FirstWordBack(w: u64, n: nat, ws: seq<u64>, b: seq<byte>, rest: seq<byte>)
    requires ReadWords(n, b) == Ok(ws, rest)
    ensures ReadWords(n + 1, BigEndian(w, 8) + b) == Ok([w] + ws, rest)
  {
    Powers();
    NumberBack(w, 8, b);
  }

  lemma StrBack(s: seq<byte>, rest: seq<byte>)
    requires |s| < UINT16
    ensures ReadStr(Str(s) + rest) == Ok(s, rest)
  {
    Powers();
    NumberBack(|s|, 2, s + rest);
    assert Str(s) + rest == BigEndian(|s|, 2) + (s + rest);
    assert s != [] ==> (s + rest)[..|s|] == s;
  }

  lemma TypeBack(buf: TypeBytes, typ: TypeBytes, rest: seq<byte>)
    ensures ReadInto(buf, typ + rest) == Ok(typ, rest)
  {
  }

  lemma Two(a: seq<byte>, b: seq<byte>, c: seq<byte>)
    ensures a + b + c == a + (b + c)
  {
  }

  lemma Regroup(a: seq<byte>, b: seq<byte>, c: seq<byte>, rest: seq<byte>)
    ensures a + b + c + rest == a + (b + (c + rest))
  {
  }

  lemma {:induction false} ColumnsBack(cols: seq<Column>, buf: TypeBytes, rest: seq<byte>)
    requires NamesFit(cols)
    ensures ReadColumns(|cols|, buf, Columns(cols) + rest) == Ok(cols, rest)
  {
    if cols == [] {
      assert Columns(cols) + rest == rest;
    } else {
      var c, more := cols[0], Columns(cols[1..]) + rest;
      ColumnsBack(cols[1..], c.typ, rest);
      StrBack(c.name, more);
      TypeBack(buf, c.typ, Str(c.name) + more);
      Regroup(c.typ, Str(c.name), Columns(cols[1..]), rest);
      assert [c] + cols[1..] == cols;
    }
  }

  lemma NamesBack(s: Schema, rest: seq<byte>)
    requires SchemaFits(s)
    ensures ReadNames(s.blockMaxRows, s.primaryKey, s.segmentMaxBlocks,
                      Str(s.name) + (BigEndian(|s.columns|, 2) + (Columns(s.columns) + rest))) == Ok(s, rest)
  {
    Powers();
    var more := Columns(s.columns) + rest;
    StrBack(s.name, BigEndian(|s.columns|, 2) + more);
    NumberBack(|s.columns|, 2, more);
    ColumnsBack(s.columns, Zeros(TYPE_SIZE), rest);
  }

  lemma NumbersBack(s: Schema, b: seq<byte>)
    ensures ReadSchema(BigEndian(s.blockMaxRows, 4) + (BigEndian(Unsigned(s.primaryKey), 4) + (BigEndian(s.segmentMaxBlocks, 2) + b)))
            == ReadNames(s.blockMaxRows, s.primaryKey, s.segmentMaxBlocks, b)
  {
    Powers();
    var b2 := BigEndian(s.segmentMaxBlocks, 2) + b;
    NumberBack(s.blockMaxRows, 4, BigEndian(Unsigned(s.primaryKey), 4) + b2);
    NumberBack(Unsigned(s.primaryKey), 4, b2);
    NumberBack(s.segmentMaxBlocks, 2, b);
  }

  lemma SchemaBack(s: Schema, rest: seq<byte>)
    requires SchemaFits(s)
    ensures ReadSchema(SchemaBytes(s) + rest) == Ok(s, rest)
  {
    var rows, key, blocks := BigEndian(s.blockMaxRows, 4), BigEndian(Unsigned(s.primaryKey), 4), BigEndian(s.segmentMaxBlocks, 2);
    var name, count, cols := Str(s.name), BigEndian(|s.columns|, 2), Columns(s.columns);
    NamesBack(s, rest);
    NumbersBack(s, name + (count + (cols + rest)));
    Regroup(rows + key + blocks + name, count, cols, rest);
    Regroup(rows + key, blocks, name, count + (cols + rest));
    Regroup(rows, key, blocks + (name + (count + (cols + rest))), []);
    assert SchemaBytes(s) + rest == rows + (key + (blocks + (name + (count + (cols + rest)))));
  }

  /** An entry command: id, 8-byte fields, tail. */
  lemma EntryBack(t: nat, id: u32, ws: seq<u64>, tail: seq<byte>)
    requires 256 <= t <= 263 && |ws| == WordCount(t)
    ensures ReadEntry(t, BigEndian(id, 4) + Words(ws) + tail) == ReadTail(t, id, ws, tail)
  {
    Powers();
    assert BigEndian(id, 4) + Words(ws) + tail == BigEndian(id, 4) + (Words(ws) + tail);
    NumberBack(id, 4, Words(ws) + tail);
    WordsBack(ws, tail);
  }

  /** The same, after the command's type. */
  lemma EntryBuilt(t: nat, id: u32, ws: seq<u64>, tail: seq<byte>, rest: seq<byte>)
    requires 256 <= t <= 263 && |ws| == WordCount(t)
    ensures Build(BigEndian(t, 2) + (BigEndian(id, 4) + Words(ws) + tail) + rest) == ReadTail(t, id, ws, tail + rest)
  {
    Powers();
    var start, all := BigEndian(id, 4) + Words(ws), tail + rest;
    assert start + tail + rest == start + all;
    assert BigEndian(t, 2) + (start + tail) + rest == BigEndian(t, 2) + (start + all);
    NumberBack(t, 2, start + all);
    EntryBack(t, id, ws, all);
  }

  lemma PointerBack(c: Command, rest: seq<byte>)
    requires c.Pointer?
    ensures Build(Encode(c) + rest) == Ok(c, rest)
  {
    Powers();
    var more := Words([c.lsn]) + rest;
    assert Encode(c) + rest == BigEndian(0, 2) + (BigEndian(c.group, 4) + more);
    NumberBack(0, 2, BigEndian(c.group, 4) + more);
    NumberBack(c.group, 4, more);
    WordsBack([c.lsn], rest);
  }

  lemma PlainBuilt(t: nat, id: u32, ws: seq<u64>, rest: seq<byte>)
    requires 256 <= t <= 263 && |ws| == WordCount(t)
    ensures Build(BigEndian(t, 2) + (BigEndian(id, 4) + Words(ws)) + rest) == ReadTail(t, id, ws, rest)
  {
    var b := BigEndian(id, 4) + Words(ws);
    assert b + [] == b && [] + rest == rest;
    EntryBuilt(t, id, ws, [], rest);
  }

  lemma NamedReread(c: Command, rest: seq<byte>)
    requires (c.CreateDatabase? || c.CreateTable?) && Encodable(c)
    ensures Build(Encode(c) + rest) == Ok(c, rest)
  {
    if c.CreateDatabase? {
      EntryBuilt(256, c.id, [c.entry, c.createAt], Str(c.name), rest);
      StrBack(c.name, rest);
    } else {
      EntryBuilt(258, c.id, [c.entry, c.db, c.createAt], SchemaBytes(c.schema), rest);
      SchemaBack(c.schema, rest);
    }
  }

  /** Entry commands that consist of an id and 8-byte fields. */
  predicate Plain(c: Command) {
    !c.Pointer? && !c.Composed? && !c.CreateDatabase? && !c.CreateTable?
  }

  function Fields(c: Command): seq<u64>
    requires Plain(c)
  {
    match c
    case DropDatabase(_, entry, deleteAt) => [entry, deleteAt]
    case DropTable(_, entry, db, deleteAt) => [entry, db, deleteAt]
    case CreateSegment(_, entry, db, table, createAt) => [entry, db, table, createAt]
    case DropSegment(_, entry) => [entry]
    case CreateBlock(_, entry, db, table, segment, createAt) => [entry, db, table, segment, createAt]
    case DropBlock(_, entry) => [entry]
  }

  lemma PlainBytes(c: Command)
    requires Plain(c)
    ensures Encode(c) == BigEndian(TypeOf(c), 2) + (BigEndian(c.id, 4) + Words(Fields(c)))
  {
  }

  lemma PlainTail(c: Command, rest: seq<byte>)
    requires Plain(c)
    ensures 256 <= TypeOf(c) <= 263 && |Fields(c)| == WordCount(TypeOf(c))
    ensures ReadTail(TypeOf(c), c.id, Fields(c), rest) == Ok(Reread(c), rest)
  {
  }

  lemma EntryReread(c: Command, rest: seq<byte>)
    requires !c.Pointer? && !c.Composed? && Encodable(c)
    ensures Build(Encode(c) + rest) == Ok(Reread(c), rest)
  {
    if c.CreateDatabase? || c.CreateTable? {
      NamedReread(c, rest);
    } else {
      PlainBytes(c);
      PlainTail(c, rest);
      PlainBuilt(TypeOf(c), c.id, Fields(c), rest);
    }
  }

  /** Reading what was written, with anything after it, takes exactly the command's bytes. */
  lemma {:induction false} BuildOfEncode(c: Command, rest: seq<byte>)
    requires Encodable(c)
    ensures Build(Encode(c) + rest) == Ok(Reread(c), rest)
    decreases c, 0
  {
    if c.Pointer? {
      PointerBack(c, rest);
    } else if c.Composed? {
      Powers();
      var more := EncodeAll(c.cmds) + rest;
      assert Encode(c) + rest == BigEndian(6, 2) + (BigEndian(|c.cmds|, 4) + more);
      NumberBack(6, 2, BigEndian(|c.cmds|, 4) + more);
      NumberBack(|c.cmds|, 4, more);
      BuildOfEncodeAll(c.cmds, rest);
    } else {
      EntryReread(c, rest);
    }
  }

  lemma {:induction false} BuildOfEncodeAll(cmds: seq<Command>, rest: seq<byte>)
    requires forall i :: 0 <= i < |cmds| ==> Encodable(cmds[i])
    ensures BuildMany(|cmds|, EncodeAll(cmds) + rest) == Ok(RereadAll(cmds), rest)
    decreases cmds, 1
  {
    if cmds != [] {
      var more := EncodeAll(cmds[1..]) + rest;
      BuildOfEncode(cmds[0], more);
      BuildOfEncodeAll(cmds[1..], rest);
      FirstOfMany(cmds, rest);
      BuildOneMore(|cmds| - 1, Encode(cmds[0]) + more, Reread(cmds[0]), RereadAll(cmds[1..]), rest);
    } else {
      assert EncodeAll(cmds) + rest == rest;
    }
  }

  lemma FirstOfMany(cmds: seq<Command>, rest: seq<byte>)
    requires cmds != []
    ensures EncodeAll(cmds) + rest == Encode(cmds[0]) + (EncodeAll(cmds[1..]) + rest)
  {
    Two(Encode(cmds[0]), EncodeAll(cmds[1..]), rest);
  }

  lemma BuildOneMore(n: nat, b: seq<byte>, first: Command, others: seq<Command>, rest: seq<byte>)
    requires Build(b).Ok? && Build(b).value == first && BuildMany(n, Build(b).rest) == Ok(others, rest)
    ensures BuildMany(n + 1, b) == Ok([first] + others, rest)
  {
  }

  lemma {:induction false} ColumnsFit(n: nat, buf: TypeBytes, b: seq<byte>)
    ensures ReadColumns(n, buf, b).Ok? ==> NamesFit(ReadColumns(n, buf, b).value)
  {
    Powers();
    if n > 0 && ReadColumns(n, buf, b).Ok? {
      var r := ReadInto(buf, b);
      ColumnsFit(n - 1, r.value, ReadStr(r.rest).rest);
    }
  }

  /** Whatever the bytes, a command that was read has lengths that fit, and its create-block
      commands name their own id as their segment. */
  lemma {:induction false} BuiltIsKept(b: seq<byte>)
    ensures Build(b).Ok? ==> Encodable(Build(b).value) && KeepsSegments(Build(b).value)
    decreases |b|, 0
  {
    Powers();
    if Build(b).Ok? {
      var r := ReadNumber(b, 2);
      if r.value == 6 {
        var n := ReadNumber(r.rest, 4);
        BuiltAllKept(n.value, n.rest);
      } else if r.value == 258 {
        TableFits(r.rest);
      }
    }
  }

  lemma TableFits(b: seq<byte>)
    requires ReadEntry(258, b).Ok?
    ensures ReadEntry(258, b).value.CreateTable? && SchemaFits(ReadEntry(258, b).value.schema)
  {
    var id := ReadNumber(b, 4);
    SchemaReadFits(ReadWords(3, id.rest).rest);
  }

  lemma SchemaReadFits(b: seq<byte>)
    ensures ReadSchema(b).Ok? ==> SchemaFits(ReadSchema(b).value)
  {
    Powers();
    if ReadSchema(b).Ok? {
      var b3 := ReadNumber(ReadNumber(ReadNumber(b, 4).rest, 4).rest, 2).rest;
      var count := ReadNumber(ReadStr(b3).rest, 2);
      ColumnsFit(count.value, Zeros(TYPE_SIZE), count.rest);
    }
  }

  lemma {:induction false} BuiltAllKept(n: nat, b: seq<byte>)
    ensures BuildMany(n, b).Ok? ==>
              forall i :: 0 <= i < n ==> Encodable(BuildMany(n, b).value[i]) && KeepsSegments(BuildMany(n, b).value[i])
    decreases |b|, 1, n
  {
    if n > 0 && BuildMany(n, b).Ok? {
      BuiltIsKept(b);
      BuiltAllKept(n - 1, Build(b).rest);
    }
  }

  lemma {:induction false} RereadSame(c: Command)
    requires KeepsSegments(c)
    ensures Reread(c) == c
    decreases c, 0
  {
    if c.Composed? {
      RereadAllSame(c.cmds);
    }
  }

  lemma {:induction false} RereadAllSame(cmds: seq<Command>)
    requires forall i :: 0 <= i < |cmds| ==> KeepsSegments(cmds[i])
    ensures RereadAll(cmds) == cmds
    decreases cmds, 1
  {
    if cmds != [] {
      RereadSame(cmds[0]);
      RereadAllSame(cmds[1..]);
      assert [cmds[0]] + cmds[1..] == cmds;
    }
  }

  /** A command comes back as itself, leaving exactly the bytes after it, if and only if all
      its lengths fit and no create-block command in it names another segment. */
  lemma RoundTrip(c: Command, rest: seq<byte>)
    ensures Build(Encode(c) + rest) == Ok(c, rest) <==> Encodable(c) && KeepsSegments(c)
  {
    if Build(Encode(c) + rest) == Ok(c, rest) {
      BuiltIsKept(Encode(c) + rest);
    }
    if Encodable(c) && KeepsSegments(c) {
      BuildOfEncode(c, rest);
      RereadSame(c);
    }
  }

  /** A command that was read and is encoded again comes back the same. */
  lemma ReadAgain(b: seq<byte>, rest: seq<byte>)
    requires Build(b).Ok?
    ensures Build(Encode(Build(b).value) + rest) == Ok(Build(b).value, rest)
  {
    BuiltIsKept(b);
    RoundTrip(Build(b).value, rest);
  }

  function CutForm(id: u32, ws: seq<u64>, name: seq<byte>, k: nat): seq<byte>
    requires k <= |name|
  {
    BigEndian(256, 2) + (BigEndian(id, 4) + Words(ws)) + (BigEndian(|name|, 2) + name[..k])
  }

  /** What comes before the name: type, id, entry, timestamp and the name's length. */
  const BEFORE_NAME: nat := 24

  /** A create-database record, cut after m bytes, at or behind the beginning of the name. */
  lemma CutBytes(c: Command, m: nat)
    requires c.CreateDatabase? && BEFORE_NAME <= m <= BEFORE_NAME + |c.name|
    ensures |Encode(c)| == BEFORE_NAME + |c.name|
    ensures Encode(c)[..m] == CutForm(c.id, [c.entry, c.createAt], c.name, m - BEFORE_NAME)
  {
    var k := m - BEFORE_NAME;
    var start, name := BigEndian(c.id, 4) + Words([c.entry, c.createAt]), c.name;
    assert |start| == 20 by {
      assert [c.entry, c.createAt][1..] == [c.createAt];
      assert |Words([c.createAt])| == 8;
    }
    assert Encode(c) == BigEndian(256, 2) + (start + (BigEndian(|name|, 2) + name));
    assert name == name[..k] + name[k..];
  }

  /** The name filled up with zero bytes. */
  function Padded(c: Command, m: nat): Read<Command>
    requires c.CreateDatabase? && BEFORE_NAME <= m <= BEFORE_NAME + |c.name|
  {
    Ok(c.(name := c.name[..m - BEFORE_NAME] + Zeros(BEFORE_NAME + |c.name| - m)), [])
  }

  /** The cut is noticed exactly when it leaves no byte of the name; otherwise the name comes
      back filled up with zero bytes. */
  lemma CutRecord(c: Command, m: nat)
    requires c.CreateDatabase? && Encodable(c) && m < |Encode(c)|
    ensures |Encode(c)| == BEFORE_NAME + |c.name|
    ensures Build(Encode(c)[..m]) == if m <= BEFORE_NAME then Err(Eof) else Padded(c, m)
  {
    EncodedSize(c);
    if m <= BEFORE_NAME {
      ShortRecord(c, m);
    } else {
      CutBytes(c, m);
      LongRecord(Encode(c)[..m], c, m);
    }
  }

  lemma EncodedSize(c: Command)
    requires c.CreateDatabase?
    ensures |Encode(c)| == BEFORE_NAME + |c.name|
  {
    CutBytes(c, BEFORE_NAME);
  }

  lemma LongRecord(b: seq<byte>, c: Command, m: nat)
    requires c.CreateDatabase? && |c.name| < UINT16 && BEFORE_NAME < m < BEFORE_NAME + |c.name|
    requires b == CutForm(c.id, [c.entry, c.createAt], c.name, m - BEFORE_NAME)
    ensures Build(b) == Padded(c, m)
  {
    LongBuilt(c.id, [c.entry, c.createAt], c.name, m - BEFORE_NAME, BEFORE_NAME + |c.name| - m);
  }

  lemma LongBuilt(id: u32, ws: seq<u64>, name: seq<byte>, k: nat, missing: nat)
    requires |ws| == 2 && |name| < UINT16 && 0 < k < |name| == k + missing
    ensures Build(CutForm(id, ws, name, k)) == Ok(CreateDatabase(id, ws[0], ws[1], name[..k] + Zeros(missing)), [])
  {
    var left := BigEndian(|name|, 2) + name[..k];
    CutString(name, k);
    PlainBuilt(256, id, ws, left);
    NamePadded(id, ws, left, name[..k] + Zeros(missing));
  }

  lemma NamePadded(id: u32, ws: seq<u64>, b: seq<byte>, name: seq<byte>)
    requires |ws| == 2 && ReadStr(b) == Ok(name, [])
    ensures ReadTail(256, id, ws, b) == Ok(CreateDatabase(id, ws[0], ws[1], name), [])
  {
  }

  /** A string of which k bytes are left. */
  lemma CutString(s: seq<byte>, k: nat)
    requires |s| < UINT16 && 0 < k < |s|
    ensures ReadStr(BigEndian(|s|, 2) + s[..k]) == Ok(s[..k] + Zeros(|s| - k), [])
  {
    Powers();
    NumberBack(|s|, 2, s[..k]);
    ShortRead(Zeros(|s|), s[..k]);
    ZerosTail(|s|, k);
  }

  lemma ShortRead(buf: seq<byte>, b: seq<byte>)
    requires 0 < |b| < |buf|
    ensures ReadInto(buf, b) == Ok(b + buf[|b|..], [])
  {
  }

  lemma ZerosTail(n: nat, k: nat)
    requires k <= n
    ensures Zeros(n)[k..] == Zeros(n - k)
  {
  }

  lemma ShortRecord(c: Command, m: nat)
    requires c.CreateDatabase? && Encodable(c) && m < |Encode(c)| && m <= 24
    ensures Build(Encode(c)[..m]) == Err(Eof)
  {
    Powers();
    CutBytes(c, BEFORE_NAME);
    var b := Encode(c)[..m];
    if m == 24 {
      PlainBuilt(256, c.id, [c.entry, c.createAt], BigEndian(|c.name|, 2) + c.name[..0]);
      NumberBack(|c.name|, 2, c.name[..0]);
    } else if m >= 2 {
      assert b == BigEndian(256, 2) + b[2..] by {
        assert Encode(c)[..2] == BigEndian(256, 2);
      }
      NumberBack(256, 2, b[2..]);
    }
  }
}
