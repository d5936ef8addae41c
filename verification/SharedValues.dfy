/** Update values that share memory. A value is a slice of a buffer, and the patch appends the
    rest of the column to it in place when the buffer has room behind the slice. What lies
    there may be a value that is still to be written. */
module SharedValues {
  import opened Rows
  import opened Wire
  import opened Sequences
  import opened PackedBytes
  import opened ColumnUpdates

  datatype Slice = Slice(buf: nat, off: nat, len: nat)
  {
    function End(): nat { off + len }
  }

  type Heap = seq<seq<byte>>

  predicate InHeap(heap: Heap, s: Slice) {
    s.buf < |heap| && s.End() <= |heap[s.buf]|
  }

  function Read(heap: Heap, s: Slice): (v: seq<byte>)
    requires InHeap(heap, s)
    ensures |v| == s.len
  {
    heap[s.buf][s.off..s.End()]
  }

  /** There is room for n more bytes behind the slice. */
  predicate HasRoom(heap: Heap, s: Slice, n: nat)
    requires InHeap(heap, s)
  {
    s.End() + n <= |heap[s.buf]|
  }

  /** The buffers after appending to a slice: written in place if there is room, otherwise the
      result is a new buffer. */
  function Appended(heap: Heap, s: Slice, suffix: seq<byte>): (h: Heap)
    requires InHeap(heap, s)
    ensures |h| == |heap| && forall b :: 0 <= b < |h| ==> |h[b]| == |heap[b]|
  {
    if !HasRoom(heap, s, |suffix|) then heap
    else
      var buf := heap[s.buf];
      heap[s.buf := buf[..s.End()] + suffix + buf[s.End() + |suffix|..]]
  }

  /** A byte of a buffer after an append: a byte of the suffix where that was written. */
  lemma AppendedAt(heap: Heap, s: Slice, suffix: seq<byte>, b: nat, p: nat)
    requires InHeap(heap, s) && b < |heap| && p < |heap[b]|
    ensures Appended(heap, s, suffix)[b][p] ==
      if b == s.buf && HasRoom(heap, s, |suffix|) && s.End() <= p < s.End() + |suffix| then suffix[p - s.End()] else heap[b][p]
  {
  }

  /** The column behind a row. */
  function Behind(column: seq<seq<byte>>, row: nat): seq<byte>
    requires row < |column|
  {
    Flatten(column[row + 1..])
  }

  /** The rows of a delta ascend, and each has its value. */
  ghost predicate Delta(column: seq<seq<byte>>, rows: seq<nat>, slices: seq<Slice>, heap: Heap) {
    && Ascending(rows) && |slices| == |rows|
    && (forall i :: 0 <= i < |rows| ==> rows[i] < |column|)
    && (forall i :: 0 <= i < |slices| ==> InHeap(heap, slices[i]))
  }

  /** The buffers when k rows have been patched. The rows behind the k-th are untouched by
      then, so what is appended is the old column. */
  ghost function HeapAt(column: seq<seq<byte>>, rows: seq<nat>, slices: seq<Slice>, heap: Heap, k: nat): (h: Heap)
    requires Delta(column, rows, slices, heap) && k <= |rows|
    ensures |h| == |heap| && forall b :: 0 <= b < |h| ==> |h[b]| == |heap[b]|
  {
    if k == 0 then heap
    else Appended(HeapAt(column, rows, slices, heap, k - 1), slices[k - 1], Behind(column, rows[k - 1]))
  }

  /** The value the patch of the k-th row reads. */
  ghost function Seen(column: seq<seq<byte>>, rows: seq<nat>, slices: seq<Slice>, heap: Heap, k: nat): seq<byte>
    requires Delta(column, rows, slices, heap) && k < |rows|
  {
    Read(HeapAt(column, rows, slices, heap, k), slices[k])
  }

  /** What the patch writes, and what it was meant to write. */
  ghost function Written(column: seq<seq<byte>>, rows: seq<nat>, slices: seq<Slice>, heap: Heap): (v: seq<seq<byte>>)
    requires Delta(column, rows, slices, heap)
    ensures |v| == |rows| && forall k :: 0 <= k < |v| ==> v[k] == Seen(column, rows, slices, heap, k)
  {
    seq(|rows|, k requires 0 <= k < |rows| => Seen(column, rows, slices, heap, k))
  }

  ghost function Meant(slices: seq<Slice>, heap: Heap): (v: seq<seq<byte>>)
    requires forall i :: 0 <= i < |slices| ==> InHeap(heap, slices[i])
    ensures |v| == |slices| && forall k :: 0 <= k < |v| ==> v[k] == Read(heap, slices[k])
  {
    seq(|slices|, k requires 0 <= k < |slices| => Read(heap, slices[k]))
  }

  /** The updates that give each row its value. */
  ghost function Zip<T>(rows: seq<nat>, vals: seq<T>): map<nat, T>
    requires |vals| == |rows|
  {
    if rows == [] then map[] else
      var z := |rows| - 1;
      Zip(rows[..z], vals[..z])[rows[z] := vals[z]]
  }

  lemma {:induction false} ZipAt<T>(rows: seq<nat>, vals: seq<T>)
    requires Ascending(rows) && |vals| == |rows|
    ensures Zip(rows, vals).Keys == Elements(rows)
    ensures forall i :: 0 <= i < |rows| ==> rows[i] in Zip(rows, vals) && Zip(rows, vals)[rows[i]] == vals[i]
  {
    if rows != [] {
      var z := |rows| - 1;
      ZipAt(rows[..z], vals[..z]);
      PrefixElements(rows, z);
      assert rows[..z + 1] == rows;
      forall i | 0 <= i < z ensures rows[i] in Zip(rows, vals) && Zip(rows, vals)[rows[i]] == vals[i] {
        assert rows[..z][i] == rows[i] && vals[..z][i] == vals[i] && rows[i] < rows[z];
      }
    }
  }

  lemma SamePatchIff<T>(column: seq<T>, rows: seq<nat>, a: seq<T>, b: seq<T>)
    requires Ascending(rows) && |a| == |rows| == |b| && forall i :: 0 <= i < |rows| ==> rows[i] < |column|
    ensures Patched(column, Zip(rows, a)) == Patched(column, Zip(rows, b)) <==> a == b
  {
    ZipAt(rows, a);
    ZipAt(rows, b);
    if Patched(column, Zip(rows, a)) == Patched(column, Zip(rows, b)) {
      forall i | 0 <= i < |rows| ensures a[i] == b[i] {
        assert Patched(column, Zip(rows, a))[rows[i]] == Zip(rows, a)[rows[i]];
        assert Patched(column, Zip(rows, b))[rows[i]] == Zip(rows, b)[rows[i]];
      }
    }
  }

  /** The patched column is the one that was meant. */
  ghost predicate Right(column: seq<seq<byte>>, rows: seq<nat>, slices: seq<Slice>, heap: Heap)
    requires Delta(column, rows, slices, heap)
  {
    Patched(column, Zip(rows, Written(column, rows, slices, heap))) == Patched(column, Zip(rows, Meant(slices, heap)))
  }

  // ----- when it is right -----

  /** Appending n bytes to a writes over byte p of b. */
  ghost predicate Hits(heap: Heap, a: Slice, n: nat, b: Slice, p: int)
    requires InHeap(heap, a)
  {
    a.buf == b.buf && HasRoom(heap, a, n) && b.off <= p < b.End() && a.End() <= p < a.End() + n
  }

  /** No patch appends into a value that is still to be written. */
  ghost predicate Apart(column: seq<seq<byte>>, rows: seq<nat>, slices: seq<Slice>, heap: Heap)
    requires Delta(column, rows, slices, heap)
  {
    forall i, j, p :: 0 <= i < j < |rows| ==> !Hits(heap, slices[i], |Behind(column, rows[i])|, slices[j], p)
  }

  /** Bytes that no append reaches stay. */
  lemma {:induction false} Unreached(column: seq<seq<byte>>, rows: seq<nat>, slices: seq<Slice>, heap: Heap, k: nat, s: Slice, p: nat)
    requires Delta(column, rows, slices, heap) && k <= |rows| && InHeap(heap, s) && s.off <= p < s.End()
    requires forall i :: 0 <= i < k ==> !Hits(heap, slices[i], |Behind(column, rows[i])|, s, p)
    ensures HeapAt(column, rows, slices, heap, k)[s.buf][p] == heap[s.buf][p]
  {
    if k > 0 {
      Unreached(column, rows, slices, heap, k - 1, s, p);
      AppendedAt(HeapAt(column, rows, slices, heap, k - 1), slices[k - 1], Behind(column, rows[k - 1]), s.buf, p);
    }
  }

  lemma ApartIsRight(column: seq<seq<byte>>, rows: seq<nat>, slices: seq<Slice>, heap: Heap)
    requires Delta(column, rows, slices, heap) && Apart(column, rows, slices, heap)
    ensures Right(column, rows, slices, heap)
  {
    var w, m := Written(column, rows, slices, heap), Meant(slices, heap);
    forall k | 0 <= k < |rows| ensures w[k] == m[k] {
      ApartSeen(column, rows, slices, heap, k);
    }
    SamePatchIff(column, rows, w, m);
  }

  lemma ApartSeen(column: seq<seq<byte>>, rows: seq<nat>, slices: seq<Slice>, heap: Heap, k: nat)
    requires Delta(column, rows, slices, heap) && Apart(column, rows, slices, heap) && k < |rows|
    ensures Seen(column, rows, slices, heap, k) == Read(heap, slices[k])
  {
    var s := slices[k];
    forall q | 0 <= q < s.len ensures Seen(column, rows, slices, heap, k)[q] == Read(heap, s)[q] {
      Unreached(column, rows, slices, heap, k, s, s.off + q);
    }
  }

  // ----- and only then -----

  ghost predicate SameShape(a: seq<seq<byte>>, b: seq<seq<byte>>) {
    |a| == |b| && forall i :: 0 <= i < |a| ==> |a[i]| == |b[i]|
  }

  ghost function Filled(column: seq<seq<byte>>, x: byte): (c: seq<seq<byte>>)
    ensures SameShape(c, column)
    ensures forall i :: 0 <= i < |c| ==> forall p :: 0 <= p < |c[i]| ==> c[i][p] == x
  {
    seq(|column|, i requires 0 <= i < |column| => seq(|column[i]|, _ => x))
  }

  lemma {:induction false} FlattenedShape(a: seq<seq<byte>>, b: seq<seq<byte>>)
    requires SameShape(a, b)
    ensures |Flatten(a)| == |Flatten(b)|
  {
    if a != [] {
      FlattenedShape(a[..|a| - 1], b[..|b| - 1]);
    }
  }

  lemma {:induction false} FlattenedFill(a: seq<seq<byte>>, x: byte)
    requires forall i :: 0 <= i < |a| ==> forall p :: 0 <= p < |a[i]| ==> a[i][p] == x
    ensures forall p :: 0 <= p < |Flatten(a)| ==> Flatten(a)[p] == x
  {
    if a != [] {
      FlattenedFill(a[..|a| - 1], x);
    }
  }

  lemma FilledBehind(column: seq<seq<byte>>, x: byte, row: nat)
    requires row < |column|
    ensures |Behind(Filled(column, x), row)| == |Behind(column, row)|
    ensures forall p :: 0 <= p < |Behind(column, row)| ==> Behind(Filled(column, x), row)[p] == x
  {
    var c := Filled(column, x);
    FlattenedShape(c[row + 1..], column[row + 1..]);
    FlattenedFill(c[row + 1..], x);
  }

  /** In a column of one byte, what an append once wrote there is that byte. */
  lemma {:induction false} Overwritten(column: seq<seq<byte>>, x: byte, rows: seq<nat>, slices: seq<Slice>, heap: Heap, i: nat, k: nat, s: Slice, p: nat)
    requires Delta(column, rows, slices, heap) && i < k <= |rows| && InHeap(heap, s) && s.off <= p < s.End()
    requires Hits(heap, slices[i], |Behind(column, rows[i])|, s, p)
    ensures Delta(Filled(column, x), rows, slices, heap)
    ensures HeapAt(Filled(column, x), rows, slices, heap, k)[s.buf][p] == x
  {
    var c := Filled(column, x);
    FilledBehind(column, x, rows[k - 1]);
    AppendedAt(HeapAt(c, rows, slices, heap, k - 1), slices[k - 1], Behind(c, rows[k - 1]), s.buf, p);
    if i < k - 1 {
      Overwritten(column, x, rows, slices, heap, i, k - 1, s, p);
    }
  }

  lemma HitIsWrong(column: seq<seq<byte>>, rows: seq<nat>, slices: seq<Slice>, heap: Heap, i: nat, j: nat, p: nat) returns (c: seq<seq<byte>>)
    requires Delta(column, rows, slices, heap) && i < j < |rows|
    requires Hits(heap, slices[i], |Behind(column, rows[i])|, slices[j], p)
    ensures SameShape(c, column) && Delta(c, rows, slices, heap) && !Right(c, rows, slices, heap)
  {
    var s := slices[j];
    var x: byte := if heap[s.buf][p] == 0 then 1 else 0;
    c := Filled(column, x);
    Overwritten(column, x, rows, slices, heap, i, j, s, p);
    var w, m := Written(c, rows, slices, heap), Meant(slices, heap);
    assert w[j][p - s.off] == x && m[j][p - s.off] == heap[s.buf][p];
    SamePatchIff(c, rows, w, m);
  }

  /** Patching is right for every column of these lengths exactly if no patch appends into a
      value that is still to be written. */
  lemma SharedRightIff(column: seq<seq<byte>>, rows: seq<nat>, slices: seq<Slice>, heap: Heap)
    requires Delta(column, rows, slices, heap)
    ensures Apart(column, rows, slices, heap) <==>
      forall c :: SameShape(c, column) && Delta(c, rows, slices, heap) ==> Right(c, rows, slices, heap)
  {
    if Apart(column, rows, slices, heap) {
      forall c | SameShape(c, column) && Delta(c, rows, slices, heap) ensures Right(c, rows, slices, heap) {
        ApartShape(column, c, rows, slices, heap);
        ApartIsRight(c, rows, slices, heap);
      }
    } else {
      var i, j, p :| 0 <= i < j < |rows| && Hits(heap, slices[i], |Behind(column, rows[i])|, slices[j], p);
      var c := HitIsWrong(column, rows, slices, heap, i, j, p);
    }
  }

  lemma ApartShape(column: seq<seq<byte>>, c: seq<seq<byte>>, rows: seq<nat>, slices: seq<Slice>, heap: Heap)
    requires Delta(column, rows, slices, heap) && Apart(column, rows, slices, heap)
    requires SameShape(c, column) && Delta(c, rows, slices, heap)
    ensures Apart(c, rows, slices, heap)
  {
    forall i, j, p | 0 <= i < j < |rows| ensures !Hits(heap, slices[i], |Behind(c, rows[i])|, slices[j], p) {
      FlattenedShape(c[rows[i] + 1..], column[rows[i] + 1..]);
      assert !Hits(heap, slices[i], |Behind(column, rows[i])|, slices[j], p);
    }
  }

  // ----- the loop -----

  /** The buffer behind a row, halfway through a patch, is that of the old column. */
  lemma BehindIsOld(column: seq<seq<byte>>, updates: map<nat, seq<byte>>, rows: seq<nat>, k: nat)
    requires Ascending(rows) && k < |rows| && rows[k] < |column|
    ensures var vals := PatchedUpTo(column, updates, rows, k);
            && Start(vals, rows[k]) + |vals[rows[k]]| <= |Flatten(vals)|
            && Flatten(vals)[Start(vals, rows[k]) + |vals[rows[k]]|..] == Behind(column, rows[k])
  {
    var vals, row := PatchedUpTo(column, updates, rows, k), rows[k];
    FlattenAround(vals, row);
    forall i | row < i < |column| ensures vals[i] == column[i] {
      assert i !in Elements(rows[..k]);
    }
    assert vals[row + 1..] == column[row + 1..];
  }

  /** One patched row, with the append to its value. */
  method SpliceShared(b: Bytes, pre: int, row: nat, s: Slice, heap: Heap,
                      ghost vals: seq<seq<byte>>, ghost after: seq<seq<byte>>, ghost behind: seq<byte>) returns (h: Heap)
    requires InHeap(heap, s)
    requires -1 <= pre < row < |vals| && b.Holds(vals, if pre == -1 then |vals| else pre + 1)
    requires Start(vals, row) + |vals[row]| < UINT32 && s.len < UINT32
    requires Start(vals, row) + |vals[row]| <= |Flatten(vals)| && behind == Flatten(vals)[Start(vals, row) + |vals[row]|..]
    requires after == vals[row := Read(heap, s)]
    modifies b
    ensures b.Holds(after, row + 1) && h == Appended(heap, s, behind)
  {
    if pre != -1 {
      var _ := b.UpdateOffsets(pre, row, vals);
    }
    var suffix := b.data[(b.offsets[row] + b.lengths[row]) % UINT32..];
    h := Appended(heap, s, suffix);
    b.Splice(row, Read(heap, s), vals);
  }

  method SharedRow(b: Bytes, rows: seq<nat>, k: nat, s: Slice, heap: Heap, ghost updates: map<nat, seq<byte>>, ghost column: seq<seq<byte>>)
    returns (h: Heap)
    requires Ascending(rows) && k < |rows| && rows[k] < |column| && InHeap(heap, s)
    requires updates.Keys == Elements(rows) && FitsUint32(column, updates)
    requires rows[k] in updates && updates[rows[k]] == Read(heap, s)
    requires Patching(b, column, updates, rows, k)
    modifies b
    ensures Patching(b, column, updates, rows, k + 1)
    ensures h == Appended(heap, s, Behind(column, rows[k]))
  {
    ghost var vals, after := RowFacts(column, updates, rows, k);
    h := SpliceShared(b, if k == 0 then -1 else rows[k - 1], rows[k], s, heap, vals, after, Behind(column, rows[k]));
  }

  lemma RowFacts(column: seq<seq<byte>>, updates: map<nat, seq<byte>>, rows: seq<nat>, k: nat)
    returns (vals: seq<seq<byte>>, after: seq<seq<byte>>)
    requires Ascending(rows) && k < |rows| && rows[k] < |column|
    requires updates.Keys == Elements(rows) && FitsUint32(column, updates)
    ensures vals == PatchedUpTo(column, updates, rows, k) && after == PatchedUpTo(column, updates, rows, k + 1)
    ensures rows[k] in updates && |updates[rows[k]]| < UINT32 && after == vals[rows[k] := updates[rows[k]]]
    ensures Start(vals, rows[k]) + |vals[rows[k]]| < UINT32
    ensures Start(vals, rows[k]) + |vals[rows[k]]| <= |Flatten(vals)|
    ensures Flatten(vals)[Start(vals, rows[k]) + |vals[rows[k]]|..] == Behind(column, rows[k])
  {
    vals, after := PatchedUpTo(column, updates, rows, k), PatchedUpTo(column, updates, rows, k + 1);
    PatchRowFits(column, updates, rows, k);
    BehindIsOld(column, updates, rows, k);
  }

  lemma SliceStays(column: seq<seq<byte>>, rows: seq<nat>, slices: seq<Slice>, heap: Heap, k: nat)
    requires Delta(column, rows, slices, heap) && k < |rows|
    ensures rows[k] < |column| && InHeap(HeapAt(column, rows, slices, heap, k), slices[k])
    ensures Seen(column, rows, slices, heap, k) == Read(HeapAt(column, rows, slices, heap, k), slices[k])
  {
  }

  method SharedRows(b: Bytes, rows: seq<nat>, slices: seq<Slice>, heap0: Heap, ghost updates: map<nat, seq<byte>>, ghost column: seq<seq<byte>>)
    returns (heap: Heap)
    requires Delta(column, rows, slices, heap0) && updates.Keys == Elements(rows) && FitsUint32(column, updates)
    requires forall k {:trigger Seen(column, rows, slices, heap0, k)} :: 0 <= k < |rows| ==>
               rows[k] in updates && updates[rows[k]] == Seen(column, rows, slices, heap0, k)
    requires Patching(b, column, updates, rows, 0)
    modifies b
    ensures Patching(b, column, updates, rows, |rows|) && heap == HeapAt(column, rows, slices, heap0, |rows|)
  {
    heap := heap0;
    for k := 0 to |rows|
      invariant Patching(b, column, updates, rows, k) && heap == HeapAt(column, rows, slices, heap0, k)
    {
      SliceStays(column, rows, slices, heap0, k);
      heap := SharedRow(b, rows, k, slices[k], heap, updates, column);
    }
  }

  /** The patch loop on values that are slices of buffers. It writes what it reads, which is
      what was meant if no patch appends into a value still to be written. */
  method PatchShared(b: Bytes, rows: seq<nat>, slices: seq<Slice>, heap0: Heap, ghost column: seq<seq<byte>>) returns (heap: Heap)
    requires b.Contiguous() && b.Strings() == column && Delta(column, rows, slices, heap0) && rows != []
    requires FitsUint32(column, Zip(rows, Written(column, rows, slices, heap0)))
    modifies b
    ensures b.Contiguous() && b.Strings() == Patched(column, Zip(rows, Written(column, rows, slices, heap0)))
    ensures heap == HeapAt(column, rows, slices, heap0, |rows|)
  {
    ghost var updates := Zip(rows, Written(column, rows, slices, heap0));
    ZipAt(rows, Written(column, rows, slices, heap0));
    b.ContiguousHolds();
    PatchEnds(column, updates, rows);
    heap := SharedRows(b, rows, slices, heap0, updates, column);
    CloseOffsetsAfterPatch(b, updates, rows, column);
  }
}
