/** Writing commands to a byte stream and filling them from one, field by field. */
module CommandStream {
  import opened Wire
  import opened Options
  import opened Commands
  import opened EntryCommands

  datatype Attempt<+T> = Value(value: T) | Fail(why: Failure)
  {
    predicate IsFailure() { Fail? }
    function PropagateFailure<U>(): Attempt<U> requires Fail? { Fail(why) }
    function Extract(): T requires Value? { value }
  }

  /** What a reading method returned and left in the stream, against what it should. */
  ghost predicate Agrees<T>(r: Attempt<T>, left: seq<byte>, spec: Read<T>) {
    match spec
    case Ok(value, rest) => r == Value(value) && left == rest
    case Err(why) => r == Fail(why)
  }

  class Stream {
    var data: seq<byte>

    constructor (b: seq<byte>)
      ensures data == b
    {
      data := b;
    }

    method Put(b: seq<byte>)
      modifies this
      ensures data == old(data) + b
    {
      data := data + b;
    }

    method PutWords(ws: seq<u64>)
      modifies this
      ensures data == old(data) + Words(ws)
    {
      for i := 0 to |ws|
        invariant data + Words(ws[i..]) == old(data) + Words(ws)
      {
        ghost var was := data;
        Put(BigEndian(ws[i], 8));
        assert ws[i..][1..] == ws[i + 1..];
        assert was + (BigEndian(ws[i], 8) + Words(ws[i + 1..])) == data + Words(ws[i + 1..]);
      }
      assert data + Words(ws[|ws|..]) == data;
    }

    method WriteString(s: seq<byte>)
      modifies this
      ensures data == old(data) + Str(s)
    {
      Put(BigEndian(|s|, 2));
      Put(s);
    }

    method GetNumber(width: nat) returns (r: Attempt<nat>)
      modifies this
      ensures Agrees(r, data, ReadNumber(old(data), width))
    {
      if |data| < width {
        return Fail(Eof);
      }
      r := Value(Number(data[..width]));
      data := data[width..];
    }

    method Get(buf: seq<byte>) returns (r: Attempt<seq<byte>>)
      modifies this
      ensures Agrees(r, data, ReadInto(buf, old(data)))
    {
      if buf == [] {
        return Value([]);
      }
      if data == [] {
        return Fail(Eof);
      }
      var n := if |data| < |buf| then |data| else |buf|;
      assert data[..n] + buf[n..] == if |data| < |buf| then data + buf[|data|..] else data[..|buf|];
      r := Value(data[..n] + buf[n..]);
      data := data[n..];
    }

    method ReadString() returns (r: Attempt<seq<byte>>)
      modifies this
      ensures Agrees(r, data, ReadStr(old(data)))
    {
      var n :- GetNumber(2);
      r := Get(Zeros(n));
    }

    method GetWords(n: nat) returns (r: Attempt<seq<u64>>)
      modifies this
      ensures Agrees(r, data, ReadWords(n, old(data)))
    {
      Powers();
      var ws: seq<u64> := [];
      PrependNone(ReadWords(n, data));
      for i := 0 to n
        invariant ReadWords(n, old(data)) == Prepend(ws, ReadWords(n - i, data))
      {
        ghost var more := ReadWords(n - i, data);
        var w :- GetNumber(8);
        ghost var rest := ReadWords(n - i - 1, data);
        assert Prepend(ws, more) == Prepend(ws + [w], rest) by {
          PrependOne(ws, w, rest);
        }
        ws := ws + [w];
      }
      assert ws + [] == ws;
      r := Value(ws);
    }
  }

  /** The result of a loop that has gathered done and still has more to read. */
  ghost function Prepend<T>(done: seq<T>, more: Read<seq<T>>): Read<seq<T>> {
    match more
    case Err(why) => Err(why)
    case Ok(ts, rest) => Ok(done + ts, rest)
  }

  lemma PrependOne<T>(done: seq<T>, t: T, more: Read<seq<T>>)
    ensures Prepend(done, Prepend([t], more)) == Prepend(done + [t], more)
  {
    if more.Ok? {
      assert done + ([t] + more.value) == done + [t] + more.value;
    }
  }

  lemma PrependNone<T>(more: Read<seq<T>>)
    ensures Prepend([], more) == more
  {
    if more.Ok? {
      assert [] + more.value == more.value;
    }
  }

  method MarshalSchema(s: Schema) returns (w: Stream)
    ensures fresh(w) && w.data == SchemaBytes(s)
  {
    w := new Stream([]);
    w.Put(BigEndian(s.blockMaxRows, 4));
    w.Put(BigEndian(Unsigned(s.primaryKey), 4));
    w.Put(BigEndian(s.segmentMaxBlocks, 2));
    w.WriteString(s.name);
    w.Put(BigEndian(|s.columns|, 2));
    PutColumns(s.columns, w);
  }

  method PutColumns(cols: seq<Column>, w: Stream)
    modifies w
    ensures w.data == old(w.data) + Columns(cols)
  {
    for i := 0 to |cols|
      invariant w.data + Columns(cols[i..]) == old(w.data) + Columns(cols)
    {
      ghost var was, more := w.data, Columns(cols[i + 1..]);
      var c := cols[i];
      assert cols[i..][1..] == cols[i + 1..];
      assert Columns(cols[i..]) == c.typ + Str(c.name) + more;
      w.Put(c.typ);
      w.WriteString(c.name);
      assert was + (c.typ + Str(c.name) + more) == was + c.typ + Str(c.name) + more;
    }
    assert w.data + Columns(cols[|cols|..]) == w.data;
  }

  method ReadSchemaFrom(r: Stream) returns (s: Attempt<Schema>)
    modifies r
    ensures Agrees(s, r.data, ReadSchema(old(r.data)))
  {
    Powers();
    var rows :- r.GetNumber(4);
    var key :- r.GetNumber(4);
    var blocks :- r.GetNumber(2);
    var name :- r.ReadString();
    var count :- r.GetNumber(2);
    var columns :- ReadColumnDefs(r, count);
    s := Value(Schema(rows, Signed(key), blocks, name, columns));
  }

  method ReadColumnDefs(r: Stream, count: nat) returns (cols: Attempt<seq<Column>>)
    modifies r
    ensures Agrees(cols, r.data, ReadColumns(count, Zeros(TYPE_SIZE), old(r.data)))
  {
    var buf: TypeBytes := Zeros(TYPE_SIZE);
    var done: seq<Column> := [];
    ghost var all := ReadColumns(count, buf, r.data);
    PrependNone(all);
    for i := 0 to count
      invariant all == Prepend(done, ReadColumns(count - i, buf, r.data))
    {
      ghost var more := ReadColumns(count - i, buf, r.data);
      buf :- r.Get(buf);
      var name :- r.ReadString();
      ghost var rest := ReadColumns(count - i - 1, buf, r.data);
      assert Prepend(done, more) == Prepend(done + [Column(buf, name)], rest) by {
        PrependOne(done, Column(buf, name), rest);
      }
      done := done + [Column(buf, name)];
    }
    assert done + [] == done;
    cols := Value(done);
  }

  lemma Three(a: seq<byte>, b: seq<byte>, c: seq<byte>, d: seq<byte>)
    ensures a + b + c + d == a + (b + c + d)
  {
  }

  method WriteTo(c: Command, w: Stream)
    modifies w
    ensures w.data == old(w.data) + Encode(c)
    decreases c, 1
  {
    w.Put(BigEndian(TypeOf(c), 2));
    WriteBody(c, w);
    Two(old(w.data), BigEndian(TypeOf(c), 2), Body(c));
  }

  method WriteBody(c: Command, w: Stream)
    modifies w
    ensures w.data == old(w.data) + Body(c)
    decreases c, 0
  {
    match c
    case Pointer(group, lsn) =>
      w.Put(BigEndian(group, 4));
      w.PutWords([lsn]);
      Two(old(w.data), BigEndian(group, 4), Words([lsn]));
    case Composed(cmds) =>
      w.Put(BigEndian(|cmds|, 4));
      WriteAll(cmds, w);
      Two(old(w.data), BigEndian(|cmds|, 4), EncodeAll(cmds));
    case _ =>
      MadeIsWritten(c);
      var ok := WriteEntry(Made(c), w);
  }

  method WriteAll(cmds: seq<Command>, w: Stream)
    modifies w
    ensures w.data == old(w.data) + EncodeAll(cmds)
    decreases cmds, 1
  {
    for i := 0 to |cmds|
      invariant w.data + EncodeAll(cmds[i..]) == old(w.data) + EncodeAll(cmds)
    {
      ghost var was := w.data;
      WriteTo(cmds[i], w);
      NextChild(cmds, i, was, w.data);
    }
    assert w.data + EncodeAll(cmds[|cmds|..]) == w.data;
  }

  /** The id and the 8-byte fields of an entry command. */
  method PutFields(id: u32, ws: seq<u64>, w: Stream)
    modifies w
    ensures w.data == old(w.data) + (BigEndian(id, 4) + Words(ws))
  {
    w.Put(BigEndian(id, 4));
    w.PutWords(ws);
    Two(old(w.data), BigEndian(id, 4), Words(ws));
  }

  /** The fields of an entry command. A reference that is not set is a panic, after part of
      the command may have been written. */
  method WriteEntry(o: EntryCmd, w: Stream) returns (ok: bool)
    modifies w
    ensures ok <==> Writes(o).Some?
    ensures ok ==> w.data == old(w.data) + Body(Writes(o).value)
  {
    if o.cmdType == 256 {
      if o.db.None? {
        return false;
      }
      WriteDatabase(o.id, o.entry, o.db.value.name, w);
    } else if o.cmdType == 258 || o.cmdType == 259 {
      if o.table.None? || o.table.value.db.None? {
        return false;
      }
      ok := WriteTable(o, o.table.value, o.table.value.db.value.base.id, w);
      return;
    } else if o.cmdType == 260 || o.cmdType == 262 {
      if o.db.None? || o.table.None? || (o.cmdType == 262 && o.segment.None?) {
        return false;
      }
      if o.cmdType == 260 {
        PutFields(o.id, [o.entry.id, o.db.value.base.id, o.table.value.base.id, o.entry.createAt], w);
      } else {
        PutFields(o.id, [o.entry.id, o.db.value.base.id, o.table.value.base.id, o.segment.value.base.id, o.entry.createAt], w);
      }
    } else if o.cmdType == 257 {
      PutFields(o.id, [o.entry.id, o.entry.deleteAt], w);
    } else {
      PutFields(o.id, [o.entry.id], w);
    }
    ok := true;
  }

  method WriteDatabase(id: u32, entry: BaseEntry, name: seq<byte>, w: Stream)
    modifies w
    ensures w.data == old(w.data) + Body(CreateDatabase(id, entry.id, entry.createAt, name))
  {
    PutFields(id, [entry.id, entry.createAt], w);
    w.WriteString(name);
    Two(old(w.data), BigEndian(id, 4) + Words([entry.id, entry.createAt]), Str(name));
  }

  method WriteTable(o: EntryCmd, table: TableEntry, db: u64, w: Stream) returns (ok: bool)
    requires o.cmdType == 258 || o.cmdType == 259
    modifies w
    ensures ok <==> o.cmdType == 259 || table.schema.Some?
    ensures ok && o.cmdType == 258 ==> w.data == old(w.data) + Body(CreateTable(o.id, o.entry.id, db, o.entry.createAt, table.schema.value))
    ensures ok && o.cmdType == 259 ==> w.data == old(w.data) + Body(DropTable(o.id, o.entry.id, db, o.entry.deleteAt))
  {
    if o.cmdType == 259 {
      PutFields(o.id, [o.entry.id, db, o.entry.deleteAt], w);
      return true;
    }
    PutFields(o.id, [o.entry.id, db, o.entry.createAt], w);
    if table.schema.None? {
      return false;
    }
    var buf := MarshalSchema(table.schema.value);
    w.Put(buf.data);
    Two(old(w.data), BigEndian(o.id, 4) + Words([o.entry.id, db, o.entry.createAt]), SchemaBytes(table.schema.value));
    ok := true;
  }

  /** Writes a tree that came from the reader, and says whether it went through. */
  method WriteAgain(c: Command, w: Stream) returns (ok: bool)
    modifies w
    ensures ok <==> !HasTable(c)
    ensures ok ==> w.data == old(w.data) + Encode(Reread(c))
    decreases c, 0
  {
    RewritableIff(c);
    w.Put(BigEndian(TypeOf(c), 2));
    if c.Composed? {
      w.Put(BigEndian(|c.cmds|, 4));
      ok := WriteAllAgain(c.cmds, w);
      Three(old(w.data), BigEndian(TypeOf(c), 2), BigEndian(|c.cmds|, 4), EncodeAll(RereadAll(c.cmds)));
      Two(BigEndian(TypeOf(c), 2), BigEndian(|c.cmds|, 4), EncodeAll(RereadAll(c.cmds)));
    } else {
      ok := c.Pointer?;
      if ok {
        WriteBody(c, w);
      } else {
        FilledIsWrittenIff(c);
        ok := WriteEntry(Filled(c), w);
      }
      Two(old(w.data), BigEndian(TypeOf(c), 2), Body(Reread(c)));
    }
  }

  method WriteAllAgain(cmds: seq<Command>, w: Stream) returns (ok: bool)
    modifies w
    ensures ok <==> forall i :: 0 <= i < |cmds| ==> !HasTable(cmds[i])
    ensures ok ==> w.data == old(w.data) + EncodeAll(RereadAll(cmds))
    decreases cmds, 1
  {
    ghost var all := RereadAll(cmds);
    for i := 0 to |cmds|
      invariant forall k :: 0 <= k < i ==> !HasTable(cmds[k])
      invariant w.data + EncodeAll(all[i..]) == old(w.data) + EncodeAll(all)
    {
      ghost var was := w.data;
      var done := WriteAgain(cmds[i], w);
      if !done {
        return false;
      }
      RereadAt(cmds, i);
      NextChild(all, i, was, w.data);
    }
    NoMore(w.data, all);
    ok := true;
  }

  lemma NoMore(data: seq<byte>, cmds: seq<Command>)
    ensures data + EncodeAll(cmds[|cmds|..]) == data
  {
  }

  /** One more child is written. */
  lemma NextChild(cmds: seq<Command>, i: nat, was: seq<byte>, now: seq<byte>)
    requires i < |cmds| && now == was + Encode(cmds[i])
    ensures now + EncodeAll(cmds[i + 1..]) == was + EncodeAll(cmds[i..])
  {
    assert cmds[i..][1..] == cmds[i + 1..];
    assert was + (Encode(cmds[i]) + EncodeAll(cmds[i + 1..])) == now + EncodeAll(cmds[i + 1..]);
  }

  method BuildCommandFrom(r: Stream) returns (c: Attempt<Command>)
    modifies r
    ensures Agrees(c, r.data, Build(old(r.data)))
    decreases |r.data|, 0
  {
    Powers();
    var t :- r.GetNumber(2);
    if t == 0 {
      var group :- r.GetNumber(4);
      var ws :- r.GetWords(1);
      c := Value(Pointer(group, ws[0]));
    } else if t == 6 {
      var n :- r.GetNumber(4);
      var cmds :- ReadAll(n, r);
      c := Value(Composed(cmds));
    } else if 256 <= t <= 263 {
      c := ReadEntryFrom(t, r);
    } else {
      c := Fail(if t in {1, 2, 4, 7} then Foreign else NoFactory);
    }
  }

  method ReadAll(n: nat, r: Stream) returns (cmds: Attempt<seq<Command>>)
    modifies r
    ensures Agrees(cmds, r.data, BuildMany(n, old(r.data)))
    decreases |r.data|, 1
  {
    var done: seq<Command> := [];
    ghost var all := BuildMany(n, r.data);
    PrependNone(all);
    for i := 0 to n
      invariant |r.data| <= |old(r.data)|
      invariant all == Prepend(done, BuildMany(n - i, r.data))
    {
      ghost var more := BuildMany(n - i, r.data);
      var child :- BuildCommandFrom(r);
      ghost var rest := BuildMany(n - i - 1, r.data);
      assert Prepend(done, more) == Prepend(done + [child], rest) by {
        PrependOne(done, child, rest);
      }
      done := done + [child];
    }
    assert done + [] == done;
    cmds := Value(done);
  }

  method ReadEntryFrom(t: nat, r: Stream) returns (c: Attempt<Command>)
    requires 256 <= t <= 263
    modifies r
    ensures Agrees(c, r.data, ReadEntry(t, old(r.data)))
  {
    var o :- ReadObject(t, r);
    FilledIsWrittenIff(ReadEntry(t, old(r.data)).value);
    c := Value(View(o));
  }

  /** Fills the object of an entry command from the stream. */
  method ReadObject(t: nat, r: Stream) returns (o: Attempt<EntryCmd>)
    requires 256 <= t <= 263
    modifies r
    ensures match ReadEntry(t, old(r.data))
            case Ok(c, rest) => IsEntry(c) && Reread(c) == c && o == Value(Filled(c)) && r.data == rest
            case Err(why) => o == Fail(why)
  {
    Powers();
    var id :- r.GetNumber(4);
    var ws :- r.GetWords(WordCount(t));
    var cmd := EntryCmd(t, id, Bare(ws[0]), None, None, None);
    if t == 256 {
      cmd := cmd.(entry := cmd.entry.(createAt := ws[1]));
      var name :- r.ReadString();
      cmd := cmd.(db := Some(DBEntry(cmd.entry, name)));
    } else if t == 257 {
      cmd := cmd.(entry := cmd.entry.(deleteAt := ws[1]));
    } else if t == 258 {
      cmd := cmd.(db := Some(DBEntry(Bare(ws[1]), [])), entry := cmd.entry.(createAt := ws[2]));
      var schema :- ReadSchemaFrom(r);
      cmd := cmd.(table := Some(TableEntry(cmd.entry, None, Some(schema))));
    } else if t == 259 {
      cmd := cmd.(db := Some(DBEntry(Bare(ws[1]), [])), entry := cmd.entry.(deleteAt := ws[2]));
    } else if t == 260 || t == 262 {
      cmd := ReadParents(cmd, ws);
    }
    o := Value(cmd);
  }

  /** A segment or a block: whatever its segment's id was, the entry itself takes its place. */
  function ReadParents(cmd: EntryCmd, ws: seq<u64>): EntryCmd
    requires |ws| == if cmd.cmdType == 260 then 4 else 5
  {
    var entry := cmd.entry.(createAt := ws[|ws| - 1]);
    cmd.(db := Some(DBEntry(Bare(ws[1]), [])), table := Some(TableEntry(Bare(ws[2]), None, None)),
         entry := entry, segment := Some(SegmentEntry(entry)))
  }

  /** Through the stream and back. */
  method WriteThenRead(c: Command, rest: seq<byte>) returns (back: Attempt<Command>, left: seq<byte>)
    requires Encodable(c)
    ensures back == Value(Reread(c)) && left == rest
  {
    var s := new Stream([]);
    WriteTo(c, s);
    s.Put(rest);
    assert s.data == Encode(c) + rest;
    BuildOfEncode(c, rest);
    back := BuildCommandFrom(s);
    left := s.data;
  }
}
