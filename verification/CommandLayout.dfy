/** Where every field of a command is, byte by byte. */
module CommandLayout {
  import opened Division
  import opened Wire
  import opened Keys
  import opened Commands

  /** The bytes stand at the offset. */
  ghost predicate Holds(b: seq<byte>, off: nat, part: seq<byte>) {
    off + |part| <= |b| && b[off..off + |part|] == part
  }

  /** The number stands at the offset in width bytes. */
  ghost predicate Digits(b: seq<byte>, off: nat, width: nat, x: nat) {
    Holds(b, off, BigEndian(x, width))
  }

  lemma DivDiv(x: nat, p: nat)
    requires p > 0
    ensures x / 256 / p == x / (256 * p)
  {
    var q, r, s := x / 256 / p, x / 256 % p, x % 256;
    assert x / 256 == q * p + r;
    assert x == q * (256 * p) + (256 * r + s);
    QuotientIs(q, 256 * p, 256 * r + s);
  }

  /** The most significant byte of a number comes first. */
  lemma {:induction false} DigitAt(x: nat, width: nat, i: nat)
    requires i < width
    ensures BigEndian(x, width)[i] as nat == (x / Pow256(width - 1 - i)) % 256
  {
    if i < width - 1 {
      DigitAt(x / 256, width - 1, i);
      DivDiv(x, Pow256(width - 2 - i));
    }
  }

  lemma HoldsIn(a: seq<byte>, part: seq<byte>, c: seq<byte>)
    ensures Holds(a + part + c, |a|, part)
  {
  }

  /** What stands in a part stands in the whole. */
  lemma HoldsWithin(b: seq<byte>, off: nat, part: seq<byte>, whole: seq<byte>, start: nat, at: nat)
    requires Holds(b, off, part) && Holds(whole, start, b) && at == start + off
    ensures Holds(whole, at, part)
  {
    forall i | 0 <= i < |part| ensures whole[at + i] == part[i] {
      assert part[i] == b[off..off + |part|][i] == b[off + i];
      assert b[off + i] == whole[start..start + |b|][off + i];
    }
  }

  lemma HoldsLast(a: seq<byte>, b: seq<byte>)
    ensures Holds(a + b, |a|, b)
  {
  }

  lemma {:induction false} WordAt(ws: seq<u64>, i: nat)
    requires i < |ws|
    ensures |Words(ws)| == 8 * |ws| && Digits(Words(ws), 8 * i, 8, ws[i])
  {
    WordsLength(ws);
    WordsLength(ws[1..]);
    if i > 0 {
      WordAt(ws[1..], i - 1);
      HoldsLast(BigEndian(ws[0], 8), Words(ws[1..]));
      HoldsWithin(Words(ws[1..]), 8 * (i - 1), BigEndian(ws[i], 8), Words(ws), 8, 8 * i);
    }
  }

  lemma {:induction false} WordsLength(ws: seq<u64>)
    ensures |Words(ws)| == 8 * |ws|
  {
    if ws != [] {
      WordsLength(ws[1..]);
    }
  }

  lemma FourParts(a: seq<byte>, b: seq<byte>, c: seq<byte>, d: seq<byte>)
    ensures var whole := a + (b + c + d);
            && |whole| == |a| + |b| + |c| + |d| && Holds(whole, 0, a) && Holds(whole, |a|, b)
            && Holds(whole, |a| + |b|, c) && Holds(whole, |a| + |b| + |c|, d)
  {
  }

  /** A type, an id, 8-byte fields and what follows them. */
  lemma RecordLayout(t: seq<byte>, id: seq<byte>, ws: seq<u64>, tail: seq<byte>)
    requires |t| == 2 && |id| == 4
    ensures var b := t + (id + Words(ws) + tail);
            && |b| == 6 + 8 * |ws| + |tail| && Holds(b, 0, t) && Holds(b, 2, id) && Holds(b, 6 + 8 * |ws|, tail)
            && (forall i {:trigger ws[i]} :: 0 <= i < |ws| ==> Digits(b, 6 + 8 * i, 8, ws[i]))
  {
    var b, words := t + (id + Words(ws) + tail), Words(ws);
    WordsLength(ws);
    FourParts(t, id, words, tail);
    forall i | 0 <= i < |ws| ensures Digits(b, 6 + 8 * i, 8, ws[i]) {
      WordAt(ws, i);
      HoldsWithin(words, 8 * i, BigEndian(ws[i], 8), b, 6, 6 + 8 * i);
    }
  }

  // ----- schemas -----

  /** The bytes of the first i columns: a type, a length and a name each. */
  function ColumnStart(cols: seq<Column>, i: nat): nat
    requires i <= |cols|
  {
    if i == 0 then 0 else ColumnStart(cols, i - 1) + 18 + |cols[i - 1].name|
  }

  ghost predicate ColumnLaidOut(b: seq<byte>, off: nat, col: Column) {
    Holds(b, off, col.typ) && Digits(b, off + 16, 2, |col.name|) && Holds(b, off + 18, col.name)
  }

  /** Numbers, name and column count, and then the columns. */
  ghost predicate SchemaLaidOut(s: Schema, b: seq<byte>) {
    && Digits(b, 0, 4, s.blockMaxRows) && Digits(b, 4, 4, if s.primaryKey < 0 then s.primaryKey + 0x1_0000_0000 else s.primaryKey)
    && Digits(b, 8, 2, s.segmentMaxBlocks)
    && Digits(b, 10, 2, |s.name|) && Holds(b, 12, s.name) && Digits(b, 12 + |s.name|, 2, |s.columns|)
    && |b| == 14 + |s.name| + ColumnStart(s.columns, |s.columns|)
    && ColumnsLaidOut(b, 14 + |s.name|, s.columns)
  }

  lemma FirstColumn(col: Column, rest: seq<byte>)
    ensures ColumnLaidOut(col.typ + Str(col.name) + rest, 0, col)
  {
    var b := col.typ + Str(col.name) + rest;
    HoldsIn([], col.typ, Str(col.name) + rest);
    assert [] + col.typ + (Str(col.name) + rest) == b;
    HoldsIn(col.typ, BigEndian(|col.name|, 2), col.name + rest);
    assert col.typ + BigEndian(|col.name|, 2) + (col.name + rest) == b;
    HoldsIn(col.typ + BigEndian(|col.name|, 2), col.name, rest);
    assert col.typ + BigEndian(|col.name|, 2) + col.name + rest == b;
  }

  lemma ColumnWithin(b: seq<byte>, off: nat, col: Column, whole: seq<byte>, start: nat, at: nat)
    requires ColumnLaidOut(b, off, col) && Holds(whole, start, b) && at == start + off
    ensures ColumnLaidOut(whole, at, col)
  {
    HoldsWithin(b, off, col.typ, whole, start, at);
    HoldsWithin(b, off + 16, BigEndian(|col.name|, 2), whole, start, at + 16);
    HoldsWithin(b, off + 18, col.name, whole, start, at + 18);
  }

  lemma {:induction false} StartOfRest(cols: seq<Column>, i: nat)
    requires 0 < i <= |cols|
    ensures ColumnStart(cols, i) == 18 + |cols[0].name| + ColumnStart(cols[1..], i - 1)
  {
    if i > 1 {
      StartOfRest(cols, i - 1);
    }
  }

  lemma {:induction false} ColumnsLength(cols: seq<Column>)
    ensures |Columns(cols)| == ColumnStart(cols, |cols|)
  {
    if cols != [] {
      ColumnsLength(cols[1..]);
      StartOfRest(cols, |cols|);
    }
  }

  lemma {:induction false} ColumnAt(cols: seq<Column>, i: nat)
    requires i < |cols|
    ensures ColumnLaidOut(Columns(cols), ColumnStart(cols, i), cols[i])
  {
    var first, rest := cols[0].typ + Str(cols[0].name), Columns(cols[1..]);
    if i == 0 {
      FirstColumn(cols[0], rest);
    } else {
      ColumnAt(cols[1..], i - 1);
      StartOfRest(cols, i);
      HoldsLast(first, rest);
      ColumnWithin(rest, ColumnStart(cols[1..], i - 1), cols[i], Columns(cols), |first|, ColumnStart(cols, i));
    }
  }

  lemma SixParts(a: seq<byte>, b: seq<byte>, c: seq<byte>, len: seq<byte>, name: seq<byte>, count: seq<byte>, cols: seq<byte>)
    requires |a| == 4 == |b| && |c| == 2 == |len| == |count|
    ensures var whole := a + b + c + (len + name) + count + cols;
            && |whole| == 14 + |name| + |cols| && Holds(whole, 0, a) && Holds(whole, 4, b) && Holds(whole, 8, c)
            && Holds(whole, 10, len) && Holds(whole, 12, name) && Holds(whole, 12 + |name|, count) && Holds(whole, 14 + |name|, cols)
  {
  }

  lemma SchemaHeadLayout(s: Schema)
    ensures var b := SchemaBytes(s);
            && |b| == 14 + |s.name| + |Columns(s.columns)| && Holds(b, 14 + |s.name|, Columns(s.columns))
            && Digits(b, 0, 4, s.blockMaxRows) && Digits(b, 4, 4, Unsigned(s.primaryKey)) && Digits(b, 8, 2, s.segmentMaxBlocks)
            && Digits(b, 10, 2, |s.name|) && Holds(b, 12, s.name) && Digits(b, 12 + |s.name|, 2, |s.columns|)
  {
    SixParts(BigEndian(s.blockMaxRows, 4), BigEndian(Unsigned(s.primaryKey), 4), BigEndian(s.segmentMaxBlocks, 2),
             BigEndian(|s.name|, 2), s.name, BigEndian(|s.columns|, 2), Columns(s.columns));
  }

  lemma ColumnIn(cols: seq<Column>, b: seq<byte>, start: nat, i: nat, at: nat)
    requires i < |cols| && Holds(b, start, Columns(cols)) && at == start + ColumnStart(cols, i)
    ensures ColumnLaidOut(b, at, cols[i])
  {
    ColumnAt(cols, i);
    var off, col, columns := ColumnStart(cols, i), cols[i], Columns(cols);
    ColumnWithin(columns, off, col, b, start, at);
  }

  /** The columns, one after the other from a position on. */
  ghost predicate ColumnsLaidOut(b: seq<byte>, start: nat, cols: seq<Column>) {
    forall i :: 0 <= i < |cols| ==> ColumnLaidOut(b, start + ColumnStart(cols, i), cols[i])
  }

  lemma ColumnsIn(cols: seq<Column>, b: seq<byte>, start: nat)
    requires Holds(b, start, Columns(cols))
    ensures ColumnsLaidOut(b, start, cols)
  {
    forall i | 0 <= i < |cols| ensures ColumnLaidOut(b, start + ColumnStart(cols, i), cols[i]) {
      ColumnIn(cols, b, start, i, start + ColumnStart(cols, i));
    }
  }

  lemma SchemaLayout(s: Schema)
    ensures SchemaLaidOut(s, SchemaBytes(s))
  {
    SchemaHeadLayout(s);
    ColumnsLength(s.columns);
    ColumnsIn(s.columns, SchemaBytes(s), 14 + |s.name|);
  }

  // ----- commands -----

  /** The bytes of the first i commands. */
  function CommandStart(cmds: seq<Command>, i: nat): nat
    requires i <= |cmds|
  {
    if i == 0 then 0 else CommandStart(cmds, i - 1) + |Encode(cmds[i - 1])|
  }

  /** Type code, offset and width of every field. */
  ghost predicate LaidOut(c: Command, b: seq<byte>) {
    match c
    case Pointer(group, lsn) => |b| == 14 && Digits(b, 0, 2, 0) && Digits(b, 2, 4, group) && Digits(b, 6, 8, lsn)
    case Composed(cmds) =>
      && |b| == 6 + CommandStart(cmds, |cmds|) && Digits(b, 0, 2, 6) && Digits(b, 2, 4, |cmds|)
      && CommandsLaidOut(b, 6, cmds)
    case CreateDatabase(id, entry, createAt, name) =>
      && |b| == 24 + |name| && Digits(b, 0, 2, 256) && Digits(b, 2, 4, id) && Digits(b, 6, 8, entry) && Digits(b, 14, 8, createAt)
      && Digits(b, 22, 2, |name|) && Holds(b, 24, name)
    case DropDatabase(id, entry, deleteAt) =>
      |b| == 22 && Digits(b, 0, 2, 257) && Digits(b, 2, 4, id) && Digits(b, 6, 8, entry) && Digits(b, 14, 8, deleteAt)
    case CreateTable(id, entry, db, createAt, schema) =>
      && Digits(b, 0, 2, 258) && Digits(b, 2, 4, id) && Digits(b, 6, 8, entry) && Digits(b, 14, 8, db) && Digits(b, 22, 8, createAt)
      && |b| == 30 + |SchemaBytes(schema)| && Holds(b, 30, SchemaBytes(schema))
    case DropTable(id, entry, db, deleteAt) =>
      && |b| == 30 && Digits(b, 0, 2, 259) && Digits(b, 2, 4, id) && Digits(b, 6, 8, entry)
      && Digits(b, 14, 8, db) && Digits(b, 22, 8, deleteAt)
    case CreateSegment(id, entry, db, table, createAt) =>
      && |b| == 38 && Digits(b, 0, 2, 260) && Digits(b, 2, 4, id) && Digits(b, 6, 8, entry)
      && Digits(b, 14, 8, db) && Digits(b, 22, 8, table) && Digits(b, 30, 8, createAt)
    case DropSegment(id, entry) => |b| == 14 && Digits(b, 0, 2, 261) && Digits(b, 2, 4, id) && Digits(b, 6, 8, entry)
    case CreateBlock(id, entry, db, table, segment, createAt) =>
      && |b| == 46 && Digits(b, 0, 2, 262) && Digits(b, 2, 4, id) && Digits(b, 6, 8, entry)
      && Digits(b, 14, 8, db) && Digits(b, 22, 8, table) && Digits(b, 30, 8, segment) && Digits(b, 38, 8, createAt)
    case DropBlock(id, entry) => |b| == 14 && Digits(b, 0, 2, 263) && Digits(b, 2, 4, id) && Digits(b, 6, 8, entry)
  }

  lemma PlainLayout(c: Command)
    requires Plain(c)
    ensures LaidOut(c, Encode(c))
  {
    PlainBytes(c);
    var t, id, ws := BigEndian(TypeOf(c), 2), BigEndian(c.id, 4), Fields(c);
    RecordLayout(t, id, ws, []);
    assert id + Words(ws) + [] == id + Words(ws);
    PlainFields(c, Encode(c));
  }

  lemma PlainFields(c: Command, b: seq<byte>)
    requires Plain(c) && |b| == 6 + 8 * |Fields(c)| && Digits(b, 0, 2, TypeOf(c)) && Digits(b, 2, 4, c.id)
    requires forall i {:trigger Fields(c)[i]} :: 0 <= i < |Fields(c)| ==> Digits(b, 6 + 8 * i, 8, Fields(c)[i])
    ensures LaidOut(c, b)
  {
    var ws := Fields(c);
    assert |ws| > 0 ==> Digits(b, 6 + 8 * 0, 8, ws[0]);
    assert |ws| > 1 ==> Digits(b, 6 + 8 * 1, 8, ws[1]);
    assert |ws| > 2 ==> Digits(b, 6 + 8 * 2, 8, ws[2]);
    assert |ws| > 3 ==> Digits(b, 6 + 8 * 3, 8, ws[3]);
    assert |ws| > 4 ==> Digits(b, 6 + 8 * 4, 8, ws[4]);
  }

  lemma DatabaseLayout(c: Command)
    requires c.CreateDatabase?
    ensures LaidOut(c, Encode(c))
  {
    var ws, b := [c.entry, c.createAt], Encode(c);
    RecordLayout(BigEndian(256, 2), BigEndian(c.id, 4), ws, Str(c.name));
    assert b == BigEndian(256, 2) + (BigEndian(c.id, 4) + Words(ws) + Str(c.name));
    assert Digits(b, 6 + 8 * 0, 8, ws[0]) && Digits(b, 6 + 8 * 1, 8, ws[1]);
    NameIn(b, 22, BigEndian(|c.name|, 2), c.name);
  }

  lemma NameIn(b: seq<byte>, off: nat, len: seq<byte>, name: seq<byte>)
    requires Holds(b, off, len + name)
    ensures Holds(b, off, len) && Holds(b, off + |len|, name)
  {
    HoldsWithin(len + name, 0, len, b, off, off);
    HoldsLast(len, name);
    HoldsWithin(len + name, |len|, name, b, off, off + |len|);
  }

  lemma TableLayout(c: Command)
    requires c.CreateTable?
    ensures LaidOut(c, Encode(c))
  {
    var ws, b := [c.entry, c.db, c.createAt], Encode(c);
    RecordLayout(BigEndian(258, 2), BigEndian(c.id, 4), ws, SchemaBytes(c.schema));
    assert b == BigEndian(258, 2) + (BigEndian(c.id, 4) + Words(ws) + SchemaBytes(c.schema));
    assert Digits(b, 6 + 8 * 0, 8, ws[0]) && Digits(b, 6 + 8 * 1, 8, ws[1]) && Digits(b, 6 + 8 * 2, 8, ws[2]);
  }

  lemma PointerLayout(c: Command)
    requires c.Pointer?
    ensures LaidOut(c, Encode(c))
  {
    var ws := [c.lsn];
    RecordLayout(BigEndian(0, 2), BigEndian(c.group, 4), ws, []);
    assert Encode(c) == BigEndian(0, 2) + (BigEndian(c.group, 4) + Words(ws) + []);
    assert Digits(Encode(c), 6 + 8 * 0, 8, ws[0]);
  }

  lemma {:induction false} AllLength(cmds: seq<Command>)
    ensures |EncodeAll(cmds)| == CommandStart(cmds, |cmds|)
    decreases |cmds|
  {
    if cmds != [] {
      AllLength(cmds[1..]);
      CommandsOfRest(cmds, |cmds|);
    }
  }

  lemma {:induction false} CommandsOfRest(cmds: seq<Command>, i: nat)
    requires 0 < i <= |cmds|
    ensures CommandStart(cmds, i) == |Encode(cmds[0])| + CommandStart(cmds[1..], i - 1)
  {
    if i > 1 {
      CommandsOfRest(cmds, i - 1);
    }
  }

  lemma {:induction false} CommandAt(cmds: seq<Command>, i: nat)
    requires i < |cmds|
    ensures Holds(EncodeAll(cmds), CommandStart(cmds, i), Encode(cmds[i]))
  {
    var first, rest := Encode(cmds[0]), EncodeAll(cmds[1..]);
    assert EncodeAll(cmds) == first + rest;
    if i == 0 {
      assert (first + rest)[..|first|] == first;
    } else {
      CommandAt(cmds[1..], i - 1);
      CommandsOfRest(cmds, i);
      HoldsLast(first, rest);
      HoldsWithin(rest, CommandStart(cmds[1..], i - 1), Encode(cmds[i]), EncodeAll(cmds), |first|, CommandStart(cmds, i));
    }
  }

  lemma ThreeParts(a: seq<byte>, b: seq<byte>, c: seq<byte>)
    ensures var whole := a + (b + c); Holds(whole, 0, a) && Holds(whole, |a|, b) && Holds(whole, |a| + |b|, c)
  {
  }

  lemma ComposedLayout(c: Command)
    requires c.Composed?
    ensures LaidOut(c, Encode(c))
  {
    AllLength(c.cmds);
    ThreeParts(BigEndian(6, 2), BigEndian(|c.cmds|, 4), EncodeAll(c.cmds));
    CommandsIn(c.cmds, Encode(c), 6);
  }

  /** The commands, one after the other from a position on. */
  ghost predicate CommandsLaidOut(b: seq<byte>, start: nat, cmds: seq<Command>) {
    forall i :: 0 <= i < |cmds| ==> Holds(b, start + CommandStart(cmds, i), Encode(cmds[i]))
  }

  lemma CommandsIn(cmds: seq<Command>, b: seq<byte>, start: nat)
    requires Holds(b, start, EncodeAll(cmds))
    ensures CommandsLaidOut(b, start, cmds)
  {
    var all := EncodeAll(cmds);
    forall i | 0 <= i < |cmds| ensures Holds(b, start + CommandStart(cmds, i), Encode(cmds[i])) {
      CommandAt(cmds, i);
      HoldsWithin(all, CommandStart(cmds, i), Encode(cmds[i]), b, start, start + CommandStart(cmds, i));
    }
  }

  /** Every field of every command is where the format has it, in the width and with the type
      code of the format, the most significant byte first. */
  lemma Layout(c: Command)
    ensures LaidOut(c, Encode(c))
  {
    match c
    case Pointer(_, _) => PointerLayout(c);
    case Composed(_) => ComposedLayout(c);
    case CreateDatabase(_, _, _, _) => DatabaseLayout(c);
    case CreateTable(_, _, _, _, _) => TableLayout(c);
    case _ => PlainLayout(c);
  }

  /** The keys of the read set: a kind byte and one to four 8-byte numbers. */
  lemma KeyLayout(db: u64, tb: u64, seg: u64, blk: u64)
    ensures var k := EncodeDB(db); |k| == 9 && k[0] == 0 && Digits(k, 1, 8, db)
    ensures var k := EncodeTable(db, tb); |k| == 17 && k[0] == 1 && Digits(k, 1, 8, db) && Digits(k, 9, 8, tb)
    ensures var k := EncodeSegment(db, tb, seg);
            |k| == 25 && k[0] == 2 && Digits(k, 1, 8, db) && Digits(k, 9, 8, tb) && Digits(k, 17, 8, seg)
    ensures var k := EncodeBlock(db, tb, seg, blk);
            |k| == 33 && k[0] == 3 && Digits(k, 1, 8, db) && Digits(k, 9, 8, tb) && Digits(k, 17, 8, seg) && Digits(k, 25, 8, blk)
  {
  }

  // ----- records that are not commands -----

  /** What the reader makes of a type it does not know: types 1, 2, 4 and 7 belong to other
      commands, and all others are registered for none. */
  lemma UnknownTypes(t: u16, rest: seq<byte>)
    requires t != 0 && t != 6 && !(256 <= t <= 263)
    ensures Build(BigEndian(t, 2) + rest) == Err(if t == 1 || t == 2 || t == 4 || t == 7 then Foreign else NoFactory)
  {
    Powers();
    NumberBack(t, 2, rest);
  }

  lemma {:induction false} ShortWords(n: nat, b: seq<byte>)
    requires |b| < 8 * n
    ensures ReadWords(n, b) == Err(Eof)
  {
    if |b| >= 8 {
      ShortWords(n - 1, b[8..]);
    }
  }

  /** A record without a name that is cut short is always noticed. */
  lemma CutPlain(c: Command, m: nat)
    requires Plain(c) && m < |Encode(c)|
    ensures Build(Encode(c)[..m]) == Err(Eof)
  {
    PlainBytes(c);
    PlainTail(c, []);
    WordsLength(Fields(c));
    CutFields(TypeOf(c), c.id, Fields(c), m);
  }

  lemma CutFields(t: nat, id: u32, ws: seq<u64>, m: nat)
    requires 256 <= t <= 263 && |ws| == WordCount(t) && m < 6 + 8 * |ws| && |Words(ws)| == 8 * |ws|
    ensures Build((BigEndian(t, 2) + (BigEndian(id, 4) + Words(ws)))[..m]) == Err(Eof)
  {
    Powers();
    var b := (BigEndian(t, 2) + (BigEndian(id, 4) + Words(ws)))[..m];
    if m >= 2 {
      assert b == BigEndian(t, 2) + b[2..];
      NumberBack(t, 2, b[2..]);
      if m >= 6 {
        ShortWords(|ws|, b[6..]);
        assert b[2..][4..] == b[6..];
      }
    }
  }
}
