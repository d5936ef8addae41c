/** Variable-length columns: every string packed into one buffer, with an offset and a
    length per row. Offsets are 32-bit and, while a batch of rows is being patched or
    deleted, stale beyond the row touched last. */
module PackedBytes {
  import opened Wire
  import opened Sequences

  /** Where row i begins in the packed buffer. */
  ghost function Start(vals: seq<seq<byte>>, i: nat): nat
    requires i <= |vals|
  {
    |Flatten(vals[..i])|
  }

  lemma {:induction false} FlattenAppend(a: seq<seq<byte>>, b: seq<seq<byte>>)
    ensures Flatten(a + b) == Flatten(a) + Flatten(b)
  {
    if b == [] {
      assert a + b == a;
    } else {
      var n := |b| - 1;
      FlattenAppend(a, b[..n]);
      assert (a + b)[..|a| + n] == a + b[..n] && (a + b)[|a| + n] == b[n];
      Regroup(Flatten(a), Flatten(b[..n]), b[n]);
    }
  }

  /** The buffer around row i. */
  lemma FlattenAround(vals: seq<seq<byte>>, i: nat)
    requires i < |vals|
    ensures Flatten(vals) == Flatten(vals[..i]) + vals[i] + Flatten(vals[i + 1..])
    ensures Start(vals, i + 1) == Start(vals, i) + |vals[i]|
    ensures Start(vals, i + 1) <= |Flatten(vals)|
  {
    assert vals[..i + 1] + vals[i + 1..] == vals;
    FlattenAppend(vals[..i + 1], vals[i + 1..]);
    assert vals[..i + 1][..i] == vals[..i];
  }

  lemma StartMonotone(vals: seq<seq<byte>>, i: nat, j: nat)
    requires i <= j <= |vals|
    ensures Start(vals, i) <= Start(vals, j) <= |Flatten(vals)|
  {
    assert vals[..i] + vals[i..j] == vals[..j];
    FlattenAppend(vals[..i], vals[i..j]);
    assert vals[..j] + vals[j..] == vals;
    FlattenAppend(vals[..j], vals[j..]);
  }

  /** The layout a reader of a packed column relies on. */
  ghost predicate Tiles(data: seq<byte>, offsets: seq<nat>, lengths: seq<nat>) {
    && |offsets| == |lengths|
    && (forall i {:trigger lengths[i]} :: 0 <= i < |offsets| ==> offsets[i] + lengths[i] <= |data|)
    && (offsets != [] ==> offsets[0] == 0)
    && (forall i {:trigger lengths[i]} :: 0 <= i < |offsets| - 1 ==> offsets[i + 1] == offsets[i] + lengths[i])
    && |data| == if offsets == [] then 0 else offsets[|offsets| - 1] + lengths[|offsets| - 1]
  }

  ghost function SliceAt(data: seq<byte>, offsets: seq<nat>, lengths: seq<nat>, i: nat): seq<byte>
    requires Tiles(data, offsets, lengths) && i < |offsets|
  {
    var end := offsets[i] + lengths[i];
    data[offsets[i]..end]
  }

  /** The logical value of a packed column: each row's string as a reader cuts it out. */
  ghost function Slices(data: seq<byte>, offsets: seq<nat>, lengths: seq<nat>): (vals: seq<seq<byte>>)
    requires Tiles(data, offsets, lengths)
    ensures |vals| == |offsets|
    ensures forall i :: 0 <= i < |vals| ==> vals[i] == SliceAt(data, offsets, lengths, i)
  {
    seq(|offsets|, i requires 0 <= i < |offsets| => SliceAt(data, offsets, lengths, i))
  }

  lemma FlattenSnoc(vals: seq<seq<byte>>, n: nat)
    requires n < |vals|
    ensures Flatten(vals[..n + 1]) == Flatten(vals[..n]) + vals[n]
  {
    assert vals[..n + 1][..n] == vals[..n];
  }

  /** Everything up to the end of row n is the packing of the rows so far. */
  lemma {:induction false} PrefixIsPacked(data: seq<byte>, offsets: seq<nat>, lengths: seq<nat>, n: nat)
    requires Tiles(data, offsets, lengths) && n < |offsets|
    ensures offsets[n] + lengths[n] <= |data|
    ensures Flatten(Slices(data, offsets, lengths)[..n]) == data[..offsets[n]]
    ensures Flatten(Slices(data, offsets, lengths)[..n + 1]) == data[..offsets[n] + lengths[n]]
  {
    var vals := Slices(data, offsets, lengths);
    if n > 0 {
      PrefixIsPacked(data, offsets, lengths, n - 1);
      assert offsets[n] == offsets[n - 1] + lengths[n - 1];
    }
    FlattenSnoc(vals, n);
    var s, e := offsets[n], offsets[n] + lengths[n];
    assert data[..s] + data[s..e] == data[..e];
  }

  lemma AllPacked(data: seq<byte>, offsets: seq<nat>, lengths: seq<nat>)
    requires Tiles(data, offsets, lengths)
    ensures Flatten(Slices(data, offsets, lengths)) == data
  {
    var vals := Slices(data, offsets, lengths);
    if vals != [] {
      PrefixIsPacked(data, offsets, lengths, |vals| - 1);
      assert vals[..|vals|] == vals && data[..|data|] == data;
    }
  }

  lemma Middle<T>(a: seq<T>, x: seq<T>, b: seq<T>)
    ensures (a + x + b)[..|a|] == a
    ensures (a + x + b)[|a|..|a| + |x|] == x
    ensures (a + x + b)[|a| + |x|..] == b
  {
  }

  lemma Regroup<T>(a: seq<T>, x: seq<T>, b: seq<T>)
    ensures a + x + b == a + (x + b)
  {
  }

  lemma SpliceFlatten(vals: seq<seq<byte>>, row: nat, val: seq<byte>)
    requires row < |vals|
    ensures var at := Start(vals, row);
            at + |vals[row]| <= |Flatten(vals)| &&
            Flatten(vals[row := val]) == Flatten(vals)[..at] + (val + Flatten(vals)[at + |vals[row]|..])
  {
    var vals' := vals[row := val];
    var a, b := Flatten(vals[..row]), Flatten(vals[row + 1..]);
    assert Flatten(vals) == a + vals[row] + b by {
      FlattenAround(vals, row);
    }
    assert Flatten(vals') == a + val + b by {
      FlattenAround(vals', row);
      assert vals'[..row] == vals[..row] && vals'[row + 1..] == vals[row + 1..];
    }
    Middle(a, vals[row], b);
    Regroup(a, val, b);
  }

  lemma StartUnmoved(vals: seq<seq<byte>>, vals': seq<seq<byte>>, row: nat)
    requires row <= |vals| && row <= |vals'| && vals[..row] == vals'[..row]
    ensures forall i :: 0 <= i <= row ==> Start(vals, i) == Start(vals', i)
  {
    forall i | 0 <= i <= row ensures Start(vals', i) == Start(vals, i) {
      assert vals'[..i] == vals'[..row][..i] && vals[..i] == vals[..row][..i];
    }
  }

  /** The buffer without row i. */
  lemma CutData(data: seq<byte>, vals: seq<seq<byte>>, row: nat)
    requires row < |vals| && data == Flatten(vals)
    ensures Start(vals, row) <= Start(vals, row + 1) <= |data|
    ensures data[..Start(vals, row)] + data[Start(vals, row + 1)..] == Flatten(vals[..row] + vals[row + 1..])
    ensures row == |vals| - 1 ==> data[..Start(vals, row)] == Flatten(vals[..row] + vals[row + 1..])
  {
    FlattenAround(vals, row);
    Middle(Flatten(vals[..row]), vals[row], Flatten(vals[row + 1..]));
    FlattenAppend(vals[..row], vals[row + 1..]);
    assert vals[..row + 1][..row] == vals[..row];
  }

  lemma CutLengths(lengths: seq<nat>, vals: seq<seq<byte>>, row: nat)
    requires row < |vals| == |lengths| && forall i :: 0 <= i < |vals| ==> lengths[i] == |vals[i]|
    ensures var l, v := lengths[..row] + lengths[row + 1..], vals[..row] + vals[row + 1..];
            |l| == |v| && forall i :: 0 <= i < |v| ==> l[i] == |v[i]|
  {
  }

  lemma SliceReads(vals: seq<seq<byte>>, i: nat)
    requires i < |vals|
    ensures Start(vals, i) + |vals[i]| == Start(vals, i + 1) <= |Flatten(vals)|
    ensures Flatten(vals)[Start(vals, i)..Start(vals, i) + |vals[i]|] == vals[i]
  {
    FlattenAround(vals, i);
    Middle(Flatten(vals[..i]), vals[i], Flatten(vals[i + 1..]));
  }

  class Bytes {
    var data: seq<byte>
    var offsets: seq<nat>
    var lengths: seq<nat>

    constructor (d: seq<byte>, o: seq<nat>, l: seq<nat>)
      ensures data == d && offsets == o && lengths == l
    {
      data, offsets, lengths := d, o, l;
    }

    ghost predicate Contiguous()
      reads this
    {
      Tiles(data, offsets, lengths)
    }

    ghost function Strings(): seq<seq<byte>>
      requires Contiguous()
      reads this
    {
      Slices(data, offsets, lengths)
    }

    /** What is true between two rows of a batch: the first valid offsets are right,
        the others may be stale. */
    ghost predicate Holds(vals: seq<seq<byte>>, valid: nat)
      reads this
    {
      && data == Flatten(vals)
      && |lengths| == |offsets| == |vals|
      && (forall i :: 0 <= i < |vals| ==> lengths[i] == |vals[i]|)
      && (forall i :: 0 <= i < |vals| && i < valid ==> offsets[i] == Start(vals, i))
    }

    /** A contiguous column holds exactly its strings. */
    lemma ContiguousHolds()
      requires Contiguous()
      ensures Holds(Strings(), |offsets|)
    {
      AllPacked(data, offsets, lengths);
      forall i | 0 <= i < |offsets| ensures offsets[i] == Start(Strings(), i) && lengths[i] == |Strings()[i]| {
        PrefixIsPacked(data, offsets, lengths, i);
        assert Strings()[i] == SliceAt(data, offsets, lengths, i);
      }
    }

    /** Conversely a column with no stale offset is contiguous and reads back. */
    lemma HoldsReads(vals: seq<seq<byte>>)
      requires Holds(vals, |vals|)
      ensures Contiguous() && Strings() == vals
    {
      forall i | 0 <= i < |vals|
        ensures offsets[i] + lengths[i] == Start(vals, i + 1) <= |data|
        ensures data[offsets[i]..offsets[i] + lengths[i]] == vals[i]
      {
        SliceReads(vals, i);
      }
      assert vals[..0] == [] && vals[..|vals|] == vals;
    }

    /** Recomputes the offsets after row start, up to and including row end. An index
        error is reported instead of being raised. */
    method UpdateOffsets(start: int, end: int, ghost vals: seq<seq<byte>>) returns (ok: bool)
      requires -1 <= start && end < |vals|
      requires Holds(vals, start + 1)
      requires 0 <= end ==> Start(vals, end) < UINT32
      modifies this`offsets
      ensures ok <==> start != -1 || vals != []
      ensures ok ==> Holds(vals, (if start < end then end else start) + 1)
      ensures |offsets| == old(|offsets|)
    {
      var i := start;
      if i == -1 {
        if |offsets| == 0 {
          return false;
        }
        assert vals[..0] == [];
        offsets := offsets[0 := 0];
        i := 0;
      }
      ghost var from := i;
      while i < end
        invariant from <= i && (from <= end ==> i <= end)
        invariant Holds(vals, i + 1)
      {
        FlattenAround(vals, i);
        StartMonotone(vals, i + 1, end);
        offsets := offsets[i + 1 := (offsets[i] + lengths[i]) % UINT32];
        i := i + 1;
      }
      ok := true;
    }

    /** Replaces the string of one row: everything behind it moves, its own offset is
        right, the following ones become stale. */
    method Splice(row: nat, val: seq<byte>, ghost vals: seq<seq<byte>>)
      requires row < |vals| && Holds(vals, row + 1)
      requires Start(vals, row) + |vals[row]| < UINT32 && |val| < UINT32
      modifies this`data, this`lengths
      ensures Holds(vals[row := val], row + 1)
    {
      SpliceFlatten(vals, row, val);
      StartUnmoved(vals, vals[row := val], row);
      NoWrap(Start(vals, row) + |vals[row]|, UINT32);
      NoWrap(|val|, UINT32);
      var suffix := data[(offsets[row] + lengths[row]) % UINT32..];
      lengths := lengths[row := |val| % UINT32];
      data := data[..offsets[row]] + (val + suffix);
      assert data == Flatten(vals[row := val]);
    }

    /** Cuts one row out. Offsets in front of it stay right. */
    method Cut(row: nat, ghost vals: seq<seq<byte>>)
      requires row < |vals| && Holds(vals, if row == |vals| - 1 then row + 1 else row + 2)
      modifies this
      ensures Holds(vals[..row] + vals[row + 1..], row)
    {
      ghost var vals' := vals[..row] + vals[row + 1..];
      CutData(data, vals, row);
      CutLengths(lengths, vals, row);
      StartUnmoved(vals, vals', row);
      if row == |lengths| - 1 {
        assert vals[row + 1..] == [];
        data, lengths, offsets := data[..offsets[row]], lengths[..row], offsets[..row];
      } else {
        data := data[..offsets[row]] + data[offsets[row + 1]..];
        lengths := lengths[..row] + lengths[row + 1..];
        offsets := offsets[..row] + offsets[row + 1..];
      }
    }
  }
}
