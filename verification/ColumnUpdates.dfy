/** Applying a transaction's column delta to a column vector: patch the updated cells in
    place, then delete rows in place, and keep the null bitmap in step. */
module ColumnUpdates {
  import opened Options
  import opened Rows
  import opened Wire
  import opened Sequences
  import opened PackedBytes

  /** The element types the code distinguishes. */
  datatype Oid =
    | Int8 | Int16 | Int32 | Int64 | UInt8 | UInt16 | UInt32 | UInt64
    | Decimal | Float32 | Float64 | Date | Datetime
    | Char | Varchar | Json
  {
    predicate FixedWidth() {
      !Char? && !Varchar? && !Json?
    }
  }

  /** A cell value as the delta stores it. */
  datatype Value = Num(n: int) | Str(s: seq<byte>)

  /** A run-time panic of the original is a result here. */
  datatype Completion = Applied | Panicked

  datatype UpdateError = NoError | WriteConflict

  /** The reference meaning of a delta's updates. */
  ghost function Patched<T>(column: seq<T>, updates: map<nat, T>): (r: seq<T>)
    ensures |r| == |column|
    ensures forall i :: 0 <= i < |r| ==> r[i] == if i in updates then updates[i] else column[i]
  {
    seq(|column|, i requires 0 <= i < |column| => if i in updates then updates[i] else column[i])
  }

  ghost function Restrict<T>(updates: map<nat, T>, rows: set<nat>): map<nat, T> {
    map r | r in updates && r in rows :: updates[r]
  }

  lemma PatchNext<T>(column: seq<T>, updates: map<nat, T>, rows: seq<nat>, k: nat)
    requires Ascending(rows) && k < |rows| && rows[k] < |column|
    requires forall i :: 0 <= i < |rows| ==> rows[i] in updates
    ensures Patched(column, Restrict(updates, Elements(rows[..k + 1])))
            == Patched(column, Restrict(updates, Elements(rows[..k])))[rows[k] := updates[rows[k]]]
    ensures Patched(column, Restrict(updates, Elements(rows[..k])))[rows[k]] == column[rows[k]]
  {
    PrefixElements(rows, k);
    assert rows[k] !in Elements(rows[..k]);
  }

  /** Below a row, only the rows already passed matter. */
  lemma PatchedPrefix<T>(column: seq<T>, updates: map<nat, T>, rows: seq<nat>, k: nat, row: nat)
    requires Ascending(rows) && k <= |rows| && updates.Keys == Elements(rows)
    requires row <= |column| && forall i :: k <= i < |rows| ==> row <= rows[i]
    ensures Patched(column, Restrict(updates, Elements(rows[..k])))[..row] == Patched(column, updates)[..row]
  {
    forall i | 0 <= i < row
      ensures i in Restrict(updates, Elements(rows[..k])) <==> i in updates
    {
      if i in updates {
        var j :| 0 <= j < |rows| && rows[j] == i;
        assert rows[..k][j] == i;
      }
    }
  }

  // ----- nulls -----

  /** The nulls an iterator has passed, moved to their new ranks. */
  ghost function Shifted(nulls: seq<nat>, at: nat, dead: set<nat>): set<nat>
    requires at <= |nulls|
  {
    if at == 0 then {}
    else if nulls[at - 1] in dead then Shifted(nulls, at - 1, dead)
    else Shifted(nulls, at - 1, dead) + {Rank(nulls[at - 1], dead)}
  }

  lemma {:induction false} ShiftedMembers(nulls: seq<nat>, at: nat, dead: set<nat>)
    requires at <= |nulls|
    ensures Shifted(nulls, at, dead) == RankedSurvivors(Elements(nulls[..at]), dead)
  {
    if at > 0 {
      ShiftedMembers(nulls, at - 1, dead);
      PrefixElements(nulls, at - 1);
    }
  }

  /** All null rows not yet consumed lie above the first k deleted rows. */
  ghost predicate Ahead(nulls: seq<nat>, at: nat, rows: seq<nat>, k: nat)
    requires at <= |nulls| && k <= |rows|
  {
    forall i, j :: at <= i < |nulls| && 0 <= j < k ==> rows[j] < nulls[i]
  }

  /** One deleted row's share of the null shift: consume the nulls below it, shifted by
      the rows deleted before it, and drop a null on the row itself. */
  method PassNulls(nulls: seq<nat>, at0: nat, nsp0: set<nat>, rows: seq<nat>, k: nat)
    returns (at: nat, nsp: set<nat>)
    requires Ascending(nulls) && Ascending(rows) && k < |rows| && at0 <= |nulls|
    requires Ahead(nulls, at0, rows, k)
    requires nsp0 == Shifted(nulls, at0, Elements(rows))
    ensures at0 <= at <= |nulls|
    ensures Ahead(nulls, at, rows, k + 1)
    ensures nsp == Shifted(nulls, at, Elements(rows))
  {
    at, nsp := at0, nsp0;
    while at < |nulls|
      invariant at <= |nulls| && at0 <= at
      invariant Ahead(nulls, at, rows, k)
      invariant nsp == Shifted(nulls, at, Elements(rows))
    {
      var n := nulls[at];
      if n < rows[k] {
        at := at + 1;
      } else {
        if n == rows[k] {
          at := at + 1;
        }
        break;
      }
      NullBetween(nulls, at - 1, rows, k);
      nsp := nsp + {n - k};
    }
  }

  lemma NullBetween(nulls: seq<nat>, at: nat, rows: seq<nat>, k: nat)
    requires Ascending(rows) && k <= |rows| && at < |nulls|
    requires Ahead(nulls, at, rows, k) && (k < |rows| ==> nulls[at] < rows[k])
    ensures k <= nulls[at] && nulls[at] !in Elements(rows)
    ensures Rank(nulls[at], Elements(rows)) == nulls[at] - k
  {
    forall i | k <= i < |rows| ensures nulls[at] < rows[i] {
      assert rows[k] <= rows[i];
    }
    RankSubtracts(nulls[at], rows, k);
  }

  /** The nulls left above the last deleted row. */
  method PassTail(nulls: seq<nat>, at0: nat, nsp0: set<nat>, rows: seq<nat>) returns (nsp: set<nat>)
    requires Ascending(rows) && at0 <= |nulls|
    requires Ahead(nulls, at0, rows, |rows|)
    requires nsp0 == Shifted(nulls, at0, Elements(rows))
    ensures nsp == RankedSurvivors(Elements(nulls), Elements(rows))
  {
    nsp := nsp0;
    for at := at0 to |nulls|
      invariant nsp == Shifted(nulls, at, Elements(rows))
    {
      NullBetween(nulls, at, rows, |rows|);
      nsp := nsp + {nulls[at] - |rows|};
    }
    ShiftedMembers(nulls, |nulls|, Elements(rows));
    assert nulls[..|nulls|] == nulls;
  }

  // ----- fixed-width cells -----

  /** An overlapping copy towards the front. */
  method CopyDown(a: array<int>, dst: nat, src: nat, end: nat)
    requires dst <= src <= end <= a.Length
    modifies a
    ensures a[..dst + (end - src)] == old(a[..dst]) + old(a[src..end])
    ensures forall j :: end <= j < a.Length ==> a[j] == old(a[j])
  {
    var n := end - src;
    for i := 0 to n
      invariant a[..dst + i] == old(a[..dst]) + old(a[src..src + i])
      invariant forall j :: dst + i <= j < a.Length ==> a[j] == old(a[j])
    {
      a[dst + i] := a[src + i];
      assert a[..dst + i + 1] == a[..dst + i] + [a[dst + i]];
    }
  }

  /** The first k deleted rows lie below from, the others at to or above. */
  ghost predicate NoneBetween(rows: seq<nat>, k: nat, from: nat, to: nat) {
    && k <= |rows|
    && (forall i :: 0 <= i < k ==> rows[i] < from)
    && (forall i :: k <= i < |rows| ==> to <= rows[i])
  }

  lemma RunBefore(rows: seq<nat>, k: nat, next: nat, to: nat)
    requires Ascending(rows) && k <= |rows| && next == if k == 0 then 0 else rows[k - 1] + 1
    requires k < |rows| ==> to == rows[k]
    ensures NoneBetween(rows, k, next, to)
    ensures k < |rows| ==> next <= to
  {
  }

  lemma LiveRun(s: seq<int>, rows: seq<nat>, k: nat, from: nat, to: nat)
    requires from <= to <= |s| && NoneBetween(rows, k, from, to)
    ensures Survivors(s[..to], Elements(rows)) == Survivors(s[..from], Elements(rows)) + s[from..to]
  {
    var dead := Elements(rows[..k]);
    assert s[..to] == s[..from] + s[from..to];
    UntouchedTail(s[..from], s[from..to], dead);
    OnlyPassed(s[..from], rows, k);
    OnlyPassed(s[..to], rows, k);
  }

  lemma OnlyPassed(s: seq<int>, rows: seq<nat>, k: nat)
    requires k <= |rows| && forall i :: k <= i < |rows| ==> |s| <= rows[i]
    ensures Survivors(s, Elements(rows)) == Survivors(s, Elements(rows[..k]))
  {
    forall r | r < |s| ensures r in Elements(rows) <==> r in Elements(rows[..k]) {
      if r in rows {
        var i :| 0 <= i < |rows| && rows[i] == r;
        assert rows[..k][i] == r;
      }
    }
    SameBelow(s, Elements(rows), Elements(rows[..k]));
  }

  /** Progress of the compaction: the first pos cells are final for the first next rows,
      the rows from next on have not moved. */
  ghost predicate Compacted(s: seq<int>, was: seq<int>, dead: set<nat>, pos: nat, next: nat) {
    && pos <= next <= |was| <= |s|
    && s[..pos] == Survivors(was[..next], dead)
    && s[next..|was|] == was[next..]
  }

  lemma SkipDead(s: seq<int>, was: seq<int>, dead: set<nat>, pos: nat, row: nat)
    requires Compacted(s, was, dead, pos, row) && row < |was| && row in dead
    ensures Compacted(s, was, dead, pos, row + 1)
  {
    assert was[..row + 1][..row] == was[..row];
    assert s[row + 1..|was|] == s[row..|was|][1..];
  }

  /** Moves the live run between two deleted rows down to its final place. */
  method MoveRun(a: array<int>, pos: nat, next: nat, to: nat, ghost was: seq<int>, ghost rows: seq<nat>, ghost k: nat)
    requires next <= to <= |was| && NoneBetween(rows, k, next, to)
    requires Compacted(a[..], was, Elements(rows), pos, next)
    modifies a
    ensures Compacted(a[..], was, Elements(rows), pos + (to - next), to)
  {
    LiveRun(was, rows, k, next, to);
    assert a[next..to] == a[..][next..|was|][..to - next] == was[next..to];
    assert a[to..|was|] == a[..][next..|was|][to - next..] == was[to..];
    CopyDown(a, pos, next, to);
  }

  /** Compacts the array by moving each live run down over the rows deleted before it. */
  method InplaceDeleteRows(a: array<int>, count: nat, rows: seq<nat>) returns (kept: nat)
    requires count <= a.Length
    requires Ascending(rows) && forall i :: 0 <= i < |rows| ==> rows[i] < count
    modifies a
    ensures kept <= count
    ensures a[..kept] == Survivors(old(a[..count]), Elements(rows))
  {
    ghost var was := a[..count];
    kept := CompactRows(a, count, rows, was);
    assert was[..count] == was;
  }

  /** The run before one deleted row moves down, and the row is passed over. */
  method CompactOne(a: array<int>, pos: nat, next: nat, ghost was: seq<int>, rows: seq<nat>, k: nat)
    requires Ascending(rows) && k < |rows| && rows[k] < |was| && next == if k == 0 then 0 else rows[k - 1] + 1
    requires Compacted(a[..], was, Elements(rows), pos, next)
    modifies a
    ensures next <= rows[k] && Compacted(a[..], was, Elements(rows), pos + (rows[k] - next), rows[k] + 1)
  {
    RunBefore(rows, k, next, rows[k]);
    MoveRun(a, pos, next, rows[k], was, rows, k);
    assert rows[k] in Elements(rows);
    SkipDead(a[..], was, Elements(rows), pos + (rows[k] - next), rows[k]);
  }

  method CompactRows(a: array<int>, count: nat, rows: seq<nat>, ghost was: seq<int>) returns (kept: nat)
    requires count == |was| && Compacted(a[..], was, Elements(rows), 0, 0)
    requires Ascending(rows) && forall i :: 0 <= i < |rows| ==> rows[i] < count
    modifies a
    ensures Compacted(a[..], was, Elements(rows), kept, count)
  {
    var next: nat, pos: nat := 0, 0;
    for k := 0 to |rows|
      invariant pos <= next <= count
      invariant next == if k == 0 then 0 else rows[k - 1] + 1
      invariant Compacted(a[..], was, Elements(rows), pos, next)
    {
      CompactOne(a, pos, next, was, rows, k);
      pos := pos + (rows[k] - next);
      next := rows[k] + 1;
    }
    CompactLast(a, pos, next, count, was, rows);
    kept := pos + (count - next);
  }

  /** The run behind the last deleted row. */
  method CompactLast(a: array<int>, pos: nat, next: nat, count: nat, ghost was: seq<int>, rows: seq<nat>)
    requires count == |was| && Ascending(rows) && (forall i :: 0 <= i < |rows| ==> rows[i] < count) && next == if rows == [] then 0 else rows[|rows| - 1] + 1
    requires Compacted(a[..], was, Elements(rows), pos, next)
    modifies a
    ensures next <= |was| && Compacted(a[..], was, Elements(rows), pos + (|was| - next), |was|)
  {
    RunBefore(rows, |rows|, next, count);
    MoveRun(a, pos, next, count, was, rows, |rows|);
  }

  // ----- packed strings -----

  /** Every offset and row end the patch computes fits in 32 bits. */
  ghost predicate FitsUint32(column: seq<seq<byte>>, updates: map<nat, seq<byte>>) {
    var after := Patched(column, updates);
    && |Flatten(after)| < UINT32
    && (forall r :: r in updates ==> |updates[r]| < UINT32)
    && (forall i {:trigger Start(after, i)} :: 0 <= i < |column| ==> Start(after, i) + |column[i]| < UINT32)
  }

  lemma StartsAgree(column: seq<seq<byte>>, updates: map<nat, seq<byte>>, rows: seq<nat>, k: nat, row: nat)
    requires Ascending(rows) && k <= |rows| && updates.Keys == Elements(rows)
    requires row <= |column| && forall i :: k <= i < |rows| ==> row <= rows[i]
    ensures Start(Patched(column, Restrict(updates, Elements(rows[..k]))), row) == Start(Patched(column, updates), row)
  {
    PatchedPrefix(column, updates, rows, k, row);
  }

  /** The column with only the updates of the first k rows applied. */
  ghost function PatchedUpTo<T>(column: seq<T>, updates: map<nat, T>, rows: seq<nat>, k: nat): (r: seq<T>)
    requires k <= |rows|
    ensures |r| == |column|
  {
    Patched(column, Restrict(updates, Elements(rows[..k])))
  }

  lemma PatchEnds<T>(column: seq<T>, updates: map<nat, T>, rows: seq<nat>)
    requires updates.Keys == Elements(rows)
    ensures PatchedUpTo(column, updates, rows, 0) == column
    ensures PatchedUpTo(column, updates, rows, |rows|) == Patched(column, updates)
  {
    assert rows[..|rows|] == rows;
    assert Restrict(updates, Elements(rows)) == updates;
  }

  /** The state of a packed column after k of the rows were patched: the offsets behind
      the last patched row are stale. */
  ghost predicate Patching(b: Bytes, column: seq<seq<byte>>, updates: map<nat, seq<byte>>, rows: seq<nat>, k: nat)
    requires k <= |rows|
    reads b
  {
    b.Holds(PatchedUpTo(column, updates, rows, k), if k == 0 then |column| else rows[k - 1] + 1)
  }

  /** The facts one patched row needs. */
  lemma PatchRowFits(column: seq<seq<byte>>, updates: map<nat, seq<byte>>, rows: seq<nat>, k: nat)
    requires Ascending(rows) && k < |rows| && rows[k] < |column|
    requires updates.Keys == Elements(rows) && FitsUint32(column, updates)
    ensures var vals, row := PatchedUpTo(column, updates, rows, k), rows[k];
            && row in updates && |updates[row]| < UINT32
            && Start(vals, row) + |vals[row]| < UINT32
            && PatchedUpTo(column, updates, rows, k + 1) == vals[row := updates[row]]
  {
    assert rows[k] in Elements(rows);
    StartsAgree(column, updates, rows, k, rows[k]);
    PatchNext(column, updates, rows, k);
  }

  /** One patched row: the offsets are first brought up to date from the previously
      patched row to this one. */
  method PatchRow(b: Bytes, val: seq<byte>, ghost updates: map<nat, seq<byte>>, rows: seq<nat>, k: nat, ghost column: seq<seq<byte>>)
    requires Ascending(rows) && k < |rows| && rows[k] < |column|
    requires updates.Keys == Elements(rows) && FitsUint32(column, updates)
    requires rows[k] in updates && updates[rows[k]] == val
    requires Patching(b, column, updates, rows, k)
    modifies b
    ensures Patching(b, column, updates, rows, k + 1)
  {
    var row := rows[k];
    ghost var vals := PatchedUpTo(column, updates, rows, k);
    PatchRowFits(column, updates, rows, k);
    SpliceRow(b, if k == 0 then -1 else rows[k - 1], row, val, vals);
  }

  method SpliceRow(b: Bytes, pre: int, row: nat, val: seq<byte>, ghost vals: seq<seq<byte>>)
    requires -1 <= pre < row < |vals| && b.Holds(vals, if pre == -1 then |vals| else pre + 1)
    requires Start(vals, row) + |vals[row]| < UINT32 && |val| < UINT32
    modifies b
    ensures b.Holds(vals[row := val], row + 1)
  {
    if pre != -1 {
      var _ := b.UpdateOffsets(pre, row, vals);
    }
    b.Splice(row, val, vals);
  }

  /** Splices each updated string into the buffer and clears its null. */
  method PatchPacked(vec: Vector, updates: map<nat, seq<byte>>, rows: seq<nat>)
    requires vec.Valid() && !vec.oid.FixedWidth() && rows != []
    requires Ascending(rows) && updates.Keys == Elements(rows)
    requires forall i :: 0 <= i < |rows| ==> rows[i] < vec.RowCount()
    requires FitsUint32(vec.Strings(), updates)
    modifies vec`nulls, vec.bytes
    ensures vec.bytes.Contiguous() && vec.bytes.Strings() == Patched(old(vec.Strings()), updates)
    ensures vec.NullRows() == old(vec.NullRows()) - updates.Keys
    ensures vec.nulls.None? <==> old(vec.nulls.None?)
  {
    ghost var column := vec.bytes.Strings();
    vec.bytes.ContiguousHolds();
    PatchEnds(column, updates, rows);
    PatchRows(vec, updates, rows, column);
    CloseOffsetsAfterPatch(vec.bytes, updates, rows, column);
  }

  method PatchAndClear(vec: Vector, updates: map<nat, seq<byte>>, rows: seq<nat>, k: nat, ghost nulls: set<nat>, ghost column: seq<seq<byte>>)
    requires Ascending(rows) && k < |rows| && rows[k] < |column|
    requires updates.Keys == Elements(rows) && FitsUint32(column, updates)
    requires Patching(vec.bytes, column, updates, rows, k) && vec.NullRows() == nulls - Elements(rows[..k])
    modifies vec`nulls, vec.bytes
    ensures Patching(vec.bytes, column, updates, rows, k + 1)
    ensures vec.NullRows() == nulls - Elements(rows[..k + 1])
    ensures vec.nulls.None? <==> old(vec.nulls.None?)
  {
    assert rows[k] in Elements(rows);
    PatchRow(vec.bytes, updates[rows[k]], updates, rows, k, column);
    vec.ClearNull(rows[k]);
    NullsNext(nulls, rows, k);
  }

  method PatchRows(vec: Vector, updates: map<nat, seq<byte>>, rows: seq<nat>, ghost column: seq<seq<byte>>)
    requires Ascending(rows) && updates.Keys == Elements(rows) && FitsUint32(column, updates)
    requires forall i :: 0 <= i < |rows| ==> rows[i] < |column|
    requires Patching(vec.bytes, column, updates, rows, 0)
    modifies vec`nulls, vec.bytes
    ensures Patching(vec.bytes, column, updates, rows, |rows|)
    ensures vec.NullRows() == old(vec.NullRows()) - updates.Keys
    ensures vec.nulls.None? <==> old(vec.nulls.None?)
  {
    ghost var nulls := vec.NullRows();
    assert nulls - Elements(rows[..0]) == nulls;
    for k := 0 to |rows|
      invariant Patching(vec.bytes, column, updates, rows, k)
      invariant vec.NullRows() == nulls - Elements(rows[..k])
      invariant vec.nulls.None? <==> old(vec.nulls.None?)
    {
      PatchAndClear(vec, updates, rows, k, nulls, column);
    }
    assert rows[..|rows|] == rows;
  }

  lemma NullsNext(nulls: set<nat>, rows: seq<nat>, k: nat)
    requires k < |rows|
    ensures nulls - Elements(rows[..k + 1]) == nulls - Elements(rows[..k]) - {rows[k]}
  {
    PrefixElements(rows, k);
  }

  method CloseOffsetsAfterPatch(b: Bytes, ghost updates: map<nat, seq<byte>>, rows: seq<nat>, ghost column: seq<seq<byte>>)
    requires Ascending(rows) && rows != [] && rows[|rows| - 1] < |column|
    requires updates.Keys == Elements(rows) && FitsUint32(column, updates)
    requires Patching(b, column, updates, rows, |rows|)
    modifies b
    ensures b.Contiguous() && b.Strings() == Patched(column, updates)
  {
    PatchEnds(column, updates, rows);
    ghost var vals := Patched(column, updates);
    StartMonotone(vals, |vals| - 1, |vals|);
    var _ := b.UpdateOffsets(rows[|rows| - 1], |b.lengths| - 1, vals);
    b.HoldsReads(vals);
  }

  /** The state of a packed column after k of the rows were deleted: the offsets from the
      last cut on are stale. */
  ghost predicate Deleting(b: Bytes, column: seq<seq<byte>>, rows: seq<nat>, k: nat)
    requires k <= |rows|
    reads b
  {
    && (k != 0 ==> k - 1 <= rows[k - 1])
    && b.Holds(Survivors(column, Elements(rows[..k])), if k == 0 then |column| else rows[k - 1] - (k - 1))
  }

  /** Deletes one more row: refreshes the offsets the cut needs, then cuts. */
  method CutNext(b: Bytes, rows: seq<nat>, k: nat, ghost column: seq<seq<byte>>)
    requires Ascending(rows) && k < |rows| && rows[k] < |column| && |Flatten(column)| < UINT32
    requires Deleting(b, column, rows, k)
    modifies b
    ensures Deleting(b, column, rows, k + 1)
  {
    DeleteNext(column, rows, k);
    SurvivorsFit(column, Elements(rows[..k]));
    CutAt(b, if k == 0 then -1 else rows[k - 1] - (k - 1), rows[k] - k, Survivors(column, Elements(rows[..k])));
  }

  /** Brings the offsets up to date from the previous cut to this one, or to the row
      behind it if there is one, and cuts the row out. */
  method CutAt(b: Bytes, pre: int, row: nat, ghost vals: seq<seq<byte>>)
    requires -1 <= pre <= row < |vals| && |Flatten(vals)| < UINT32
    requires b.Holds(vals, if pre == -1 then |vals| else pre)
    modifies b
    ensures b.Holds(vals[..row] + vals[row + 1..], row)
  {
    if pre != -1 {
      var end := if row == |b.lengths| - 1 then row else row + 1;
      StartMonotone(vals, end, |vals|);
      var _ := b.UpdateOffsets(pre - 1, end, vals);
    }
    b.Cut(row, vals);
  }

  lemma {:induction false} SurvivorsFit(column: seq<seq<byte>>, dead: set<nat>)
    ensures |Flatten(Survivors(column, dead))| <= |Flatten(column)|
  {
    if column != [] {
      var n := |column| - 1;
      SurvivorsFit(column[..n], dead);
      var rest := Survivors(column[..n], dead);
      assert (rest + [column[n]])[..|rest|] == rest;
    }
  }

  lemma NothingDead<T>(s: seq<T>)
    ensures Survivors(s, {}) == s
  {
    UntouchedTail([], s, {});
    assert [] + s == s;
  }

  /** If nothing is left, the last cut was made at row 0. */
  lemma LiveCount<T>(s: seq<T>, rows: seq<nat>)
    requires Ascending(rows) && rows != [] && forall i :: 0 <= i < |rows| ==> rows[i] < |s|
    ensures |rows| <= |s|
    ensures |Survivors(s, Elements(rows))| == |s| - |rows|
    ensures |rows| - 1 <= rows[|rows| - 1] <= |s| - 1
  {
    SurvivorsCount(s, Elements(rows));
    RankSubtracts(|s|, rows, |rows|);
    RankSubtracts(rows[|rows| - 1], rows, |rows| - 1);
  }

  /** The offsets behind the last cut; an index error if there is no offset left. */
  method CloseOffsets(b: Bytes, rows: seq<nat>, ghost column: seq<seq<byte>>) returns (ok: bool)
    requires Ascending(rows) && rows != [] && forall i :: 0 <= i < |rows| ==> rows[i] < |column|
    requires Deleting(b, column, rows, |rows|) && |Flatten(column)| < UINT32
    modifies b
    ensures ok <==> |rows| < |column|
    ensures ok ==> b.Contiguous() && b.Strings() == Survivors(column, Elements(rows))
  {
    assert rows[..|rows|] == rows;
    ghost var vals := Survivors(column, Elements(rows));
    LiveCount(column, rows);
    SurvivorsFit(column, Elements(rows));
    if vals != [] {
      StartMonotone(vals, |vals| - 1, |vals|);
    }
    ok := b.UpdateOffsets(rows[|rows| - 1] - (|rows| - 1) - 1, |b.lengths| - 1, vals);
    if ok {
      b.HoldsReads(vals);
    }
  }

  /** The null shift of a fixed-width column, after its cells were compacted. */
  method ShiftNulls(rows: seq<nat>, nulls: seq<nat>) returns (nsp: set<nat>)
    requires Ascending(rows) && Ascending(nulls)
    ensures nsp == RankedSurvivors(Elements(nulls), Elements(rows))
  {
    var at := 0;
    nsp := {};
    for k := 0 to |rows|
      invariant at <= |nulls| && Ahead(nulls, at, rows, k)
      invariant nsp == Shifted(nulls, at, Elements(rows))
    {
      at, nsp := PassNulls(nulls, at, nsp, rows, k);
    }
    nsp := PassTail(nulls, at, nsp, rows);
  }

  /** The delete loop over a packed column, null bitmap included. It ends with an index
      error exactly when no row is left. */
  method DeletePacked(b: Bytes, rows: seq<nat>, nulls: seq<nat>) returns (ok: bool, nsp: set<nat>)
    requires b.Contiguous() && |b.data| < UINT32 && rows != []
    requires Ascending(rows) && Ascending(nulls)
    requires forall i :: 0 <= i < |rows| ==> rows[i] < |b.offsets|
    modifies b
    ensures ok <==> |rows| < old(|b.offsets|)
    ensures ok ==> b.Contiguous() && b.Strings() == Survivors(old(b.Strings()), Elements(rows))
    ensures ok ==> |b.data| <= old(|b.data|) && |b.offsets| == |b.Strings()|
    ensures nsp == RankedSurvivors(Elements(nulls), Elements(rows))
  {
    ghost var column := b.Strings();
    b.ContiguousHolds();
    NothingDead(column);
    assert Elements(rows[..0]) == {};
    nsp := CutRows(b, rows, nulls, column);
    ok := CloseOffsets(b, rows, column);
    SurvivorsFit(column, Elements(rows));
    if ok {
      b.ContiguousHolds();
    }
  }

  method CutRows(b: Bytes, rows: seq<nat>, nulls: seq<nat>, ghost column: seq<seq<byte>>) returns (nsp: set<nat>)
    requires Ascending(rows) && Ascending(nulls) && |Flatten(column)| < UINT32
    requires forall i :: 0 <= i < |rows| ==> rows[i] < |column|
    requires Deleting(b, column, rows, 0)
    modifies b
    ensures Deleting(b, column, rows, |rows|)
    ensures nsp == RankedSurvivors(Elements(nulls), Elements(rows))
  {
    var at := 0;
    nsp := {};
    for k := 0 to |rows|
      invariant Deleting(b, column, rows, k)
      invariant at <= |nulls| && Ahead(nulls, at, rows, k)
      invariant nsp == Shifted(nulls, at, Elements(rows))
    {
      CutNext(b, rows, k, column);
      at, nsp := PassNulls(nulls, at, nsp, rows, k);
    }
    nsp := PassTail(nulls, at, nsp, rows);
  }

  // ----- the vector and the delta -----

  /** A column vector; a fixed-width column is the first count cells of its array. */
  class Vector {
    const oid: Oid
    var cells: array<int>
    var count: nat
    var bytes: Bytes
    var nulls: Option<set<nat>>

    constructor (o: Oid, c: array<int>, n: nat, b: Bytes, nl: Option<set<nat>>)
      ensures oid == o && cells == c && count == n && bytes == b && nulls == nl
    {
      oid, cells, count, bytes, nulls := o, c, n, b, nl;
    }

    ghost predicate Valid()
      reads this, cells, bytes
    {
      && (if oid.FixedWidth() then count <= cells.Length else bytes.Contiguous() && |bytes.data| < UINT32)
      && RowCount() < UINT32
      && forall r :: r in NullRows() ==> r < RowCount()
    }

    ghost function RowCount(): nat
      reads this, bytes
    {
      if oid.FixedWidth() then count else |bytes.offsets|
    }

    /** A missing null bitmap means that no row is null. */
    ghost function NullRows(): set<nat>
      reads this
    {
      if nulls.None? then {} else nulls.value
    }

    ghost function Cells(): seq<int>
      requires Valid() && oid.FixedWidth()
      reads this, cells, bytes
    {
      cells[..count]
    }

    ghost function Strings(): seq<seq<byte>>
      requires Valid() && !oid.FixedWidth()
      reads this, cells, bytes
    {
      bytes.Strings()
    }

    method SetFixSizeTypeValue(row: nat, v: int)
      requires row < count <= cells.Length
      modifies cells
      ensures cells[..count] == old(cells[..count])[row := v]
    {
      cells[row] := v;
    }

    /** An updated row is not null any more. */
    method ClearNull(row: nat)
      modifies this`nulls
      ensures NullRows() == old(NullRows()) - {row}
      ensures nulls.None? <==> old(nulls.None?)
    {
      if nulls.Some? && row in nulls.value {
        nulls := Some(nulls.value - {row});
      }
    }
  }

  /** Stores the updated cells of a fixed-width column and clears their nulls. */
  method PatchFixed(vec: Vector, updates: map<nat, int>, rows: seq<nat>, ghost was: seq<int>)
    requires Ascending(rows) && Elements(rows) == updates.Keys
    requires vec.count <= vec.cells.Length && vec.cells[..vec.count] == was
    requires forall i :: 0 <= i < |rows| ==> rows[i] < |was|
    modifies vec`nulls, vec.cells
    ensures vec.cells[..vec.count] == Patched(was, updates)
    ensures vec.NullRows() == old(vec.NullRows()) - updates.Keys
  {
    ghost var nulls, done := vec.NullRows(), {};
    PatchEnds(was, updates, rows);
    for k := 0 to |rows|
      invariant vec.cells[..vec.count] == PatchedUpTo(was, updates, rows, k)
      invariant done == Elements(rows[..k]) && vec.NullRows() == nulls - done
    {
      PatchNext(was, updates, rows, k);
      PrefixElements(rows, k);
      vec.SetFixSizeTypeValue(rows[k], updates[rows[k]]);
      vec.ClearNull(rows[k]);
      done := done + {rows[k]};
    }
    assert rows[..|rows|] == rows;
  }

  class Delta {
    var txnMask: set<nat>
    var txnVals: map<nat, Value>

    constructor ()
      ensures Valid() && txnVals == map[]
    {
      txnMask, txnVals := {}, map[];
    }

    ghost predicate Valid()
      reads this
    {
      txnMask == txnVals.Keys
    }

    /** A row is written at most once per delta. */
    method UpdateLocked(row: nat, v: Value) returns (e: UpdateError)
      requires Valid()
      modifies this
      ensures Valid()
      ensures e.WriteConflict? <==> row in old(txnVals)
      ensures txnVals == if e.NoError? then old(txnVals)[row := v] else old(txnVals)
    {
      if row in txnVals {
        return WriteConflict;
      }
      txnMask := txnMask + {row};
      txnVals := txnVals[row := v];
      e := NoError;
    }

    /** The merged-in delta's cells win over the cells already here. */
    method MergeLocked(o: Delta)
      requires Valid() && o.Valid()
      modifies this
      ensures Valid()
      ensures txnVals == old(txnVals) + old(o.txnVals)
    {
      var vals := o.txnVals;
      var left := vals.Keys;
      while left != {}
        invariant Valid() && left <= vals.Keys
        invariant txnVals == old(txnVals) + (vals - left)
        decreases left
      {
        var k :| k in left;
        txnMask := txnMask + {k};
        txnVals := txnVals[k := vals[k]];
        left := left - {k};
      }
    }

    ghost predicate Numeric()
      reads this
    {
      forall r :: r in txnVals ==> txnVals[r].Num?
    }

    ghost predicate Textual()
      reads this
    {
      forall r :: r in txnVals ==> txnVals[r].Str?
    }

    function Numbers(): map<nat, int>
      requires Numeric()
      reads this
    {
      map r | r in txnVals :: txnVals[r].n
    }

    function Texts(): map<nat, seq<byte>>
      requires Textual()
      reads this
    {
      map r | r in txnVals :: txnVals[r].s
    }

    /** The delta was recorded against this column: its rows exist, its values have the
        column's type, and the patched buffer stays addressable. Values are plain sequences
        here: they share no memory (SharedValues says what happens if they do). */
    ghost predicate Matches(vec: Vector)
      reads this, vec, vec.cells, vec.bytes
    {
      && Valid() && vec.Valid()
      && (forall r :: r in txnMask ==> r < vec.RowCount())
      && (if vec.oid.FixedWidth() then Numeric() else Textual() && FitsUint32(vec.Strings(), Texts()))
    }

    /** The first phase: the updates. */
    method PatchColumn(vec: Vector)
      requires Matches(vec)
      modifies vec`nulls, vec.cells, vec.bytes
      ensures vec.Valid()
      ensures vec.oid.FixedWidth() ==> vec.Cells() == Patched(old(vec.Cells()), Numbers())
      ensures !vec.oid.FixedWidth() ==> vec.Strings() == Patched(old(vec.Strings()), Texts())
      ensures vec.NullRows() == old(vec.NullRows()) - txnMask
    {
      var rows := Iterate(txnMask);
      if vec.oid.FixedWidth() {
        assert forall i :: 0 <= i < |rows| ==> rows[i] in txnMask;
        PatchFixed(vec, Numbers(), rows, vec.Cells());
      } else if rows != [] {
        ghost var column := vec.Strings();
        assert forall i :: 0 <= i < |rows| ==> rows[i] in txnMask;
        PatchPacked(vec, Texts(), rows);
        vec.bytes.ContiguousHolds();
      } else {
        assert Patched(vec.Strings(), Texts()) == vec.Strings();
      }
    }

    /** Patches the column and then deletes rows. A null or empty delete bitmap deletes
        nothing. The call goes through exactly when there is nothing to delete, or the
        element type has an in-place delete, or a string column keeps a row; then the
        column is the old one with the updates written and the deleted rows filtered
        out, and the nulls are the surviving rows that were null and not updated, each
        at its new position. */
    method ApplyToColumn(vec: Vector, deletes: Option<set<nat>>) returns (r: Completion)
      requires Matches(vec)
      requires deletes.Some? ==> forall d :: d in deletes.value ==> d < vec.RowCount()
      modifies vec, vec.cells, vec.bytes
      ensures r.Applied? <==>
                || Gone(deletes) == {}
                || (if vec.oid.FixedWidth() then vec.oid.Int32? else |Gone(deletes)| < old(vec.RowCount()))
      ensures r.Applied? ==> vec.Valid() && vec.cells == old(vec.cells) && vec.bytes == old(vec.bytes)
      ensures r.Applied? && vec.oid.FixedWidth() ==>
                vec.Cells() == Survivors(Patched(old(vec.Cells()), Numbers()), Gone(deletes))
      ensures r.Applied? && !vec.oid.FixedWidth() ==>
                vec.Strings() == Survivors(Patched(old(vec.Strings()), Texts()), Gone(deletes))
      ensures r.Applied? ==>
                vec.NullRows() == RankedSurvivors(old(vec.NullRows()) - txnMask, Gone(deletes))
    {
      PatchColumn(vec);
      if deletes.None? || deletes.value == {} {
        NoRanksMove(vec.NullRows());
        if vec.oid.FixedWidth() {
          NothingDead(vec.Cells());
        } else {
          NothingDead(vec.Strings());
        }
        return Applied;
      }
      if vec.oid.FixedWidth() {
        r := DeleteFixedRows(vec, deletes.value);
      } else {
        r := DeletePackedRows(vec, deletes.value);
      }
    }
  }

  ghost function Gone(deletes: Option<set<nat>>): set<nat> {
    if deletes.None? then {} else deletes.value
  }

  lemma {:induction false} RankIdentity(row: nat)
    ensures Rank(row, {}) == row
  {
    if row > 0 {
      RankIdentity(row - 1);
    }
  }

  lemma NoRanksMove(nulls: set<nat>)
    ensures RankedSurvivors(nulls, {}) == nulls
  {
    forall r | r in nulls ensures Rank(r, {}) == r {
      RankIdentity(r);
    }
    assert forall r :: r in nulls ==> Rank(r, {}) in RankedSurvivors(nulls, {});
  }

  lemma RanksInRange<T>(s: seq<T>, nulls: set<nat>, dead: set<nat>)
    requires forall r :: r in nulls ==> r < |s|
    ensures forall r :: r in RankedSurvivors(nulls, dead) ==> r < |Survivors(s, dead)|
  {
    SurvivorsCount(s, dead);
    forall r | r in nulls && r !in dead ensures Rank(r, dead) < |Survivors(s, dead)| {
      RankMonotone(r, |s|, dead);
    }
  }

  /** Bitmap iterators for the rows to delete and for the column's nulls. */
  method Iterators(vec: Vector, dead: set<nat>) returns (rows: seq<nat>, nulls: seq<nat>)
    requires dead != {} && forall d :: d in dead ==> d < vec.RowCount()
    ensures Ascending(rows) && Elements(rows) == dead && |rows| == |dead| && rows != []
    ensures forall i :: 0 <= i < |rows| ==> rows[i] < vec.RowCount()
    ensures Ascending(nulls) && Elements(nulls) == vec.NullRows()
  {
    rows := Iterate(dead);
    ElementsCount(rows);
    assert forall i :: 0 <= i < |rows| ==> rows[i] in dead;
    nulls := [];
    if vec.nulls.Some? {
      nulls := Iterate(vec.nulls.value);
    }
  }

  method DeleteFixedRows(vec: Vector, dead: set<nat>) returns (r: Completion)
    requires vec.Valid() && vec.oid.FixedWidth()
    requires dead != {} && forall d :: d in dead ==> d < vec.RowCount()
    modifies vec, vec.cells
    ensures r.Applied? <==> vec.oid.Int32?
    ensures r.Applied? ==> vec.Valid() && vec.cells == old(vec.cells) && vec.bytes == old(vec.bytes)
    ensures r.Applied? ==> vec.Cells() == Survivors(old(vec.Cells()), dead)
    ensures r.Applied? ==> vec.NullRows() == RankedSurvivors(old(vec.NullRows()), dead)
  {
    var rows, nulls := Iterators(vec, dead);
    if vec.oid != Int32 {
      return Panicked;
    }
    RanksInRange(vec.Cells(), vec.NullRows(), dead);
    vec.count := InplaceDeleteRows(vec.cells, vec.count, rows);
    var nsp := ShiftNulls(rows, nulls);
    vec.nulls := Some(nsp);
    r := Applied;
  }

  method DeletePackedRows(vec: Vector, dead: set<nat>) returns (r: Completion)
    requires vec.Valid() && !vec.oid.FixedWidth()
    requires dead != {} && forall d :: d in dead ==> d < vec.RowCount()
    modifies vec, vec.bytes
    ensures r.Applied? <==> |dead| < old(vec.RowCount())
    ensures r.Applied? ==> vec.Valid() && vec.cells == old(vec.cells) && vec.bytes == old(vec.bytes)
    ensures r.Applied? ==> vec.Strings() == Survivors(old(vec.Strings()), dead)
    ensures r.Applied? ==> vec.NullRows() == RankedSurvivors(old(vec.NullRows()), dead)
  {
    var rows, nulls := Iterators(vec, dead);
    ghost var column := vec.Strings();
    RanksInRange(column, vec.NullRows(), dead);
    LiveCount(column, rows);
    var ok, nsp := DeletePacked(vec.bytes, rows, nulls);
    if !ok {
      return Panicked;
    }
    vec.nulls := Some(nsp);
    r := Applied;
  }
}
