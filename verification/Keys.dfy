/** The byte keys under which a transaction records what it has read. */
module Keys {
  import opened Wire

  /** An entry of the catalog as a key names it; fields a kind does not carry read as 0. */
  datatype Key = Key(kind: byte, db: nat, table: nat, segment: nat, block: nat)

  const KIND_DB: byte := 0
  const KIND_TABLE: byte := 1
  const KIND_SEGMENT: byte := 2
  const KIND_BLOCK: byte := 3

  function EncodeDB(db: nat): seq<byte> {
    [KIND_DB] + BigEndian(db, 8)
  }

  function EncodeTable(db: nat, tb: nat): seq<byte> {
    [KIND_TABLE] + BigEndian(db, 8) + BigEndian(tb, 8)
  }

  function EncodeSegment(db: nat, tb: nat, seg: nat): seq<byte> {
    [KIND_SEGMENT] + BigEndian(db, 8) + BigEndian(tb, 8) + BigEndian(seg, 8)
  }

  function EncodeBlock(db: nat, tb: nat, seg: nat, blk: nat): seq<byte> {
    [KIND_BLOCK] + BigEndian(db, 8) + BigEndian(tb, 8) + BigEndian(seg, 8) + BigEndian(blk, 8)
  }

  /** The i-th 64-bit field behind the kind byte; a field that is not there stays 0. */
  function Field(buf: seq<byte>, i: nat): nat {
    if 1 + 8 * i + 8 <= |buf| then Number(buf[1 + 8 * i..1 + 8 * i + 8]) else 0
  }

  function Decode(buf: seq<byte>): Key {
    if buf == [] then Key(0, 0, 0, 0, 0)
    else
      var kind := buf[0];
      Key(kind,
          if kind <= KIND_BLOCK then Field(buf, 0) else 0,
          if KIND_TABLE <= kind <= KIND_BLOCK then Field(buf, 1) else 0,
          if KIND_SEGMENT <= kind <= KIND_BLOCK then Field(buf, 2) else 0,
          if kind == KIND_BLOCK then Field(buf, 3) else 0)
  }

  lemma FieldAt(buf: seq<byte>, before: seq<byte>, x: nat, after: seq<byte>, i: nat)
    requires x < UINT64 && |before| == 1 + 8 * i && buf == before + BigEndian(x, 8) + after
    ensures Field(buf, i) == x
  {
    Pow256Of8();
    NumberOfBigEndian(x, 8);
    assert buf[|before|..|before| + 8] == BigEndian(x, 8);
  }

  /** The fields behind the kind byte, with what follows them. */
  lemma OneField(kind: byte, a: nat, after: seq<byte>)
    requires a < UINT64
    ensures Field([kind] + BigEndian(a, 8) + after, 0) == a
  {
    FieldAt([kind] + BigEndian(a, 8) + after, [kind], a, after, 0);
  }

  lemma TwoFields(kind: byte, a: nat, b: nat, after: seq<byte>)
    requires a < UINT64 && b < UINT64
    ensures var buf := [kind] + BigEndian(a, 8) + BigEndian(b, 8) + after;
            Field(buf, 0) == a && Field(buf, 1) == b
  {
    var start := [kind] + BigEndian(a, 8);
    OneField(kind, a, BigEndian(b, 8) + after);
    assert start + (BigEndian(b, 8) + after) == start + BigEndian(b, 8) + after;
    FieldAt(start + BigEndian(b, 8) + after, start, b, after, 1);
  }

  lemma ThreeFields(kind: byte, a: nat, b: nat, c: nat, after: seq<byte>)
    requires a < UINT64 && b < UINT64 && c < UINT64
    ensures var buf := [kind] + BigEndian(a, 8) + BigEndian(b, 8) + BigEndian(c, 8) + after;
            Field(buf, 0) == a && Field(buf, 1) == b && Field(buf, 2) == c
  {
    var start := [kind] + BigEndian(a, 8) + BigEndian(b, 8);
    TwoFields(kind, a, b, BigEndian(c, 8) + after);
    assert start + (BigEndian(c, 8) + after) == start + BigEndian(c, 8) + after;
    FieldAt(start + BigEndian(c, 8) + after, start, c, after, 2);
  }

  lemma FourFields(kind: byte, a: nat, b: nat, c: nat, d: nat)
    requires a < UINT64 && b < UINT64 && c < UINT64 && d < UINT64
    ensures var buf := [kind] + BigEndian(a, 8) + BigEndian(b, 8) + BigEndian(c, 8) + BigEndian(d, 8);
            Field(buf, 0) == a && Field(buf, 1) == b && Field(buf, 2) == c && Field(buf, 3) == d
  {
    var start := [kind] + BigEndian(a, 8) + BigEndian(b, 8) + BigEndian(c, 8);
    ThreeFields(kind, a, b, c, BigEndian(d, 8));
    assert start + BigEndian(d, 8) + [] == start + BigEndian(d, 8);
    FieldAt(start + BigEndian(d, 8), start, d, [], 3);
  }

  lemma Unpadded(buf: seq<byte>)
    ensures buf + [] == buf
  {
  }

  /** Every key decodes to exactly what was encoded, so distinct entries have distinct keys. */
  lemma DecodeEncoded(db: nat, tb: nat, seg: nat, blk: nat)
    requires db < UINT64 && tb < UINT64 && seg < UINT64 && blk < UINT64
    ensures Decode(EncodeDB(db)) == Key(KIND_DB, db, 0, 0, 0)
    ensures Decode(EncodeTable(db, tb)) == Key(KIND_TABLE, db, tb, 0, 0)
    ensures Decode(EncodeSegment(db, tb, seg)) == Key(KIND_SEGMENT, db, tb, seg, 0)
    ensures Decode(EncodeBlock(db, tb, seg, blk)) == Key(KIND_BLOCK, db, tb, seg, blk)
  {
    OneField(KIND_DB, db, []);
    Unpadded(EncodeDB(db));
    TwoFields(KIND_TABLE, db, tb, []);
    Unpadded(EncodeTable(db, tb));
    ThreeFields(KIND_SEGMENT, db, tb, seg, []);
    Unpadded(EncodeSegment(db, tb, seg));
    FourFields(KIND_BLOCK, db, tb, seg, blk);
  }
}
