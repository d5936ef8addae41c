/** Spilling a transaction's rows into bounded blocks and segments at commit. */
module Spill {
  import opened Division
  import opened Sequences

  function CeilDiv(n: nat, d: nat): (c: nat)
    requires d > 0
  {
    if n == 0 then 0 else (n - 1) / d + 1
  }

  lemma CeilDivIs(full: nat, last: nat, d: nat)
    requires 1 <= last <= d
    ensures CeilDiv(full * d + last, d) == full + 1
  {
    QuotientIs(full, d, last - 1);
  }

  /* Layout */

  /** All blocks but the last hold exactly max rows. */
  ghost predicate FullButLast<R>(blocks: seq<seq<R>>, max: nat) {
    && (forall i :: 0 <= i < |blocks| - 1 ==> |blocks[i]| == max)
    && (blocks != [] ==> |blocks[|blocks| - 1]| <= max)
  }

  lemma {:induction false} FlatLength<R>(blocks: seq<seq<R>>, max: nat)
    requires FullButLast(blocks, max) && blocks != []
    ensures |Flatten(blocks)| == (|blocks| - 1) * max + |blocks[|blocks| - 1]|
  {
    var init := blocks[..|blocks| - 1];
    if init != [] {
      FlatLength(init, max);
      assert |init| * max == (|init| - 1) * max + max;
    }
  }

  /** The row at position p of the table is at position p % max of block p / max. */
  lemma {:induction false} FlatAt<R>(blocks: seq<seq<R>>, max: nat, p: nat)
    requires FullButLast(blocks, max) && p < |Flatten(blocks)|
    ensures max > 0 && p / max < |blocks| && p % max < |blocks[p / max]| && blocks[p / max][p % max] == Flatten(blocks)[p]
  {
    var n := |blocks| - 1;
    var init := blocks[..n];
    FlatLength(blocks, max);
    if p < |Flatten(init)| {
      FlatAt(init, max, p);
    } else {
      if init != [] {
        FlatLength(init, max);
        assert n * max == (n - 1) * max + max;
      }
      assert |Flatten(init)| == n * max;
      var o := p - n * max;
      assert o < |blocks[n]| <= max;
      if o < max {
        QuotientIs(n, max, o);
      }
    }
  }

  /** How much of m more rows the table takes in one go when it holds n. */
  function Take(n: nat, m: nat, max: nat): (k: nat)
    requires max > 0
    ensures k <= m && (m > 0 ==> k > 0)
  {
    if m < max - n % max then m else max - n % max
  }

  /** The rows of the table once the rest of a node, from position done on, has been spilled.
      Every chunk is cut from the start of the node. */
  function Spilled<R>(flat: seq<R>, node: seq<R>, done: nat, max: nat): (r: seq<R>)
    requires max > 0 && done <= |node|
    ensures |r| == |flat| + |node| - done
    decreases |node| - done
  {
    if done == |node| then flat else
    var k := Take(|flat|, |node| - done, max);
    Spilled(flat + node[..k], node, done + k, max)
  }

  /** The place of row j of a node inside its chunk, when the table held n rows. */
  function Within(n: nat, j: nat, max: nat): (o: nat)
    requires max > 0
    ensures o <= j
  {
    var first := max - n % max;
    if j < first then j else (j - first) % max
  }

  lemma WithinShifts(n: nat, j: nat, max: nat)
    requires max > 0 && j >= max - n % max
    ensures Within(n + max - n % max, j - (max - n % max), max) == Within(n, j, max)
  {
    var first := max - n % max;
    var x := j - first;
    assert n + first == (n / max + 1) * max + 0;
    QuotientIs(n / max + 1, max, 0);
    if x < max {
      QuotientIs(0, max, x);
    } else {
      assert x == (x / max) * max + x % max;
      assert x / max != 0;
      assert x - max == (x / max - 1) * max + x % max;
      QuotientIs(x / max - 1, max, x % max);
    }
  }

  lemma {:induction false} SpilledAt<R>(flat: seq<R>, node: seq<R>, done: nat, max: nat, j: nat)
    requires max > 0 && done + j < |node|
    ensures Spilled(flat, node, done, max)[|flat| + j] == node[Within(|flat|, j, max)]
    decreases |node| - done
  {
    var k := Take(|flat|, |node| - done, max);
    if j < k {
      SpilledKeeps(flat + node[..k], node, done + k, max);
      var r, p := Spilled(flat + node[..k], node, done + k, max), |flat| + j;
      assert r[p] == r[..|flat| + k][p] == (flat + node[..k])[p];
    } else {
      WithinShifts(|flat|, j, max);
      SpilledAt(flat + node[..k], node, done + k, max, j - k);
    }
  }

  /** Every row equals the one at its place in the first chunk's numbering. */
  ghost predicate Repeats<R>(n: nat, node: seq<R>, max: nat)
    requires max > 0
  {
    forall j {:trigger Within(n, j, max)} :: 0 <= j < |node| ==> node[j] == node[Within(n, j, max)]
  }

  /** Every chunk is cut from the start of the node, so the spill copies a node faithfully
      exactly when the later chunks repeat it. */
  lemma SpillFaithfulIff<R>(flat: seq<R>, node: seq<R>, max: nat)
    requires max > 0
    ensures Spilled(flat, node, 0, max) == flat + node <==> Repeats(|flat|, node, max)
  {
    var r := Spilled(flat, node, 0, max);
    SpilledKeeps(flat, node, 0, max);
    forall j: nat | j < |node| ensures r[|flat| + j] == node[Within(|flat|, j, max)] {
      SpilledAt(flat, node, 0, max, j);
    }
    if Repeats(|flat|, node, max) {
      forall p | |flat| <= p < |r| ensures r[p] == node[p - |flat|] {
        assert r[p] == node[Within(|flat|, p - |flat|, max)];
      }
      assert r == r[..|flat|] + r[|flat|..];
      assert r[|flat|..] == node;
    }
    if r == flat + node {
      forall j: nat | j < |node| ensures node[j] == node[Within(|flat|, j, max)] {
        assert r[|flat| + j] == node[j];
      }
    }
  }

  /** Distinct rows survive exactly when they all fit the room left in the last block, or an
      empty one if it is full. */
  lemma DistinctRowsSurviveIff<R>(flat: seq<R>, node: seq<R>, max: nat)
    requires max > 0 && forall i, j :: 0 <= i < j < |node| ==> node[i] != node[j]
    ensures Spilled(flat, node, 0, max) == flat + node <==> |node| <= max - |flat| % max
  {
    SpillFaithfulIff(flat, node, max);
    var first := max - |flat| % max;
    if |node| > first {
      assert Within(|flat|, first, max) == 0 by {
        QuotientIs(0, max, 0);
      }
    }
  }

  lemma {:induction false} SpilledKeeps<R>(flat: seq<R>, node: seq<R>, done: nat, max: nat)
    requires max > 0 && done <= |node|
    ensures Spilled(flat, node, done, max)[..|flat|] == flat
    decreases |node| - done
  {
    if done < |node| {
      var k := Take(|flat|, |node| - done, max);
      SpilledKeeps(flat + node[..k], node, done + k, max);
      assert Spilled(flat, node, done, max)[..|flat|] == Spilled(flat, node, done, max)[..|flat| + k][..|flat|];
    }
  }

  /* Append records */

  /** Rows [srcOff, srcOff + len) of a node went to block blk, from row destOff on. */
  datatype Info = Info(srcOff: nat, len: nat, blk: nat, destOff: nat)

  /** The records cut the first m rows of a node into consecutive non-empty ranges, and row i
      of the node is row n + i of the table. */
  ghost predicate Partition(infos: seq<Info>, n: nat, m: nat, max: nat) {
    if infos == [] then m == 0 else
      var last := infos[|infos| - 1];
      && last.len > 0 && last.srcOff + last.len == m
      && last.blk * max + last.destOff == n + last.srcOff && last.destOff + last.len <= max
      && Partition(infos[..|infos| - 1], n, last.srcOff, max)
  }

  /** What is taken of m rows when b blocks are full and the next one holds last rows. */
  lemma TakeIs(n: nat, b: nat, last: nat, m: nat, max: nat)
    requires last < max && n == b * max + last
    ensures Take(n, m, max) == if m > max - last then max - last else m
  {
    QuotientIs(b, max, last);
  }

  lemma Recorded(infos: seq<Info>, info: Info, n: nat, m: nat, max: nat)
    requires Partition(infos, n, m, max) && info.srcOff == m && info.len > 0
    requires info.blk * max + info.destOff == n + m && info.destOff + info.len <= max
    ensures Partition(infos + [info], n, m + info.len, max)
  {
    assert (infos + [info])[..|infos|] == infos;
  }

  ghost predicate Carries(info: Info, i: nat) {
    info.srcOff <= i < info.srcOff + info.len
  }

  /** Every row has its record, which names the block and offset the row's position implies. */
  lemma {:induction false} RecordOf(infos: seq<Info>, n: nat, m: nat, max: nat, i: nat) returns (k: nat)
    requires Partition(infos, n, m, max) && i < m
    ensures max > 0 && k < |infos| && Carries(infos[k], i)
    ensures infos[k].blk == (n + i) / max && infos[k].destOff + (i - infos[k].srcOff) == (n + i) % max
  {
    var last := infos[|infos| - 1];
    if i < last.srcOff {
      k := RecordOf(infos[..|infos| - 1], n, last.srcOff, max, i);
    } else {
      k := |infos| - 1;
      var o := last.destOff + (i - last.srcOff);
      assert n + i == last.blk * max + o;
      QuotientIs(last.blk, max, o);
    }
  }

  /** No row has two records. */
  lemma {:induction false} RecordsDisjoint(infos: seq<Info>, n: nat, m: nat, max: nat, a: nat, b: nat, i: nat)
    requires Partition(infos, n, m, max) && a < |infos| && b < |infos| && Carries(infos[a], i) && Carries(infos[b], i)
    ensures a == b && i < m
  {
    var z := |infos| - 1;
    var init, last := infos[..z], infos[z];
    if a < z {
      RecordsDisjoint(init, n, last.srcOff, max, a, a, i);
    }
    if b < z {
      RecordsDisjoint(init, n, last.srcOff, max, b, b, i);
    }
    if a < z && b < z {
      RecordsDisjoint(init, n, last.srcOff, max, a, b, i);
    }
  }

  /* The table */

  /** Segments hold per blocks each, the last one at least one. */
  ghost predicate SegmentsLaid(segs: seq<nat>, blocks: nat, per: nat) {
    if segs == [] then blocks == 0 else
      && (forall i :: 0 <= i < |segs| - 1 ==> segs[i] == per)
      && 1 <= segs[|segs| - 1] <= per
      && (|segs| - 1) * per + segs[|segs| - 1] == blocks
  }

  lemma SegmentAdded(segs: seq<nat>, blocks: nat, per: nat)
    requires SegmentsLaid(segs, blocks, per) && per > 0 && (segs == [] || segs[|segs| - 1] == per)
    ensures SegmentsLaid(segs + [1], blocks + 1, per)
  {
    if segs != [] {
      assert |segs| * per == (|segs| - 1) * per + per;
    }
  }

  lemma BlocksExact<R>(blocks: seq<seq<R>>, max: nat)
    requires FullButLast(blocks, max) && (blocks != [] ==> blocks[|blocks| - 1] != []) && max > 0
    ensures |blocks| == CeilDiv(|Flatten(blocks)|, max)
  {
    if blocks != [] {
      FlatLength(blocks, max);
      CeilDivIs(|blocks| - 1, |blocks[|blocks| - 1]|, max);
    }
  }

  lemma SegmentsExact(segs: seq<nat>, blocks: nat, per: nat)
    requires SegmentsLaid(segs, blocks, per) && per > 0
    ensures |segs| == CeilDiv(blocks, per)
  {
    if segs != [] {
      CeilDivIs(|segs| - 1, segs[|segs| - 1], per);
    }
  }

  /** There are as many blocks as the rows need and as many segments as the blocks need. */
  lemma CountsExact<R>(blocks: seq<seq<R>>, segs: seq<nat>, max: nat, per: nat)
    requires FullButLast(blocks, max) && (blocks != [] ==> blocks[|blocks| - 1] != []) && max > 0
    requires SegmentsLaid(segs, |blocks|, per) && per > 0
    ensures |blocks| == CeilDiv(|Flatten(blocks)|, max)
    ensures |segs| == CeilDiv(|blocks|, per)
  {
    BlocksExact(blocks, max);
    SegmentsExact(segs, |blocks|, per);
  }

  datatype Appender = Ready | NoSegment | NoBlock

  class DataTable<R> {
    const maxRows: nat
    const maxBlocks: nat
    var blocks: seq<seq<R>>
    var segs: seq<nat>

    constructor (maxRows: nat, maxBlocks: nat)
      ensures Valid() && blocks == [] && this.maxRows == maxRows && this.maxBlocks == maxBlocks
    {
      this.maxRows, this.maxBlocks := maxRows, maxBlocks;
      blocks, segs := [], [];
    }

    /** A segment limit of zero still lets every new segment have its first block. */
    function PerSegment(): (n: nat)
      ensures n > 0
    {
      if maxBlocks == 0 then 1 else maxBlocks
    }

    ghost predicate Laid()
      reads this
    {
      FullButLast(blocks, maxRows) && SegmentsLaid(segs, |blocks|, PerSegment()) && (blocks == [] <==> segs == [])
    }

    ghost predicate Valid()
      reads this
    {
      Laid() && (blocks != [] ==> blocks[|blocks| - 1] != [])
    }

    method GetAppender() returns (a: Appender)
      requires Laid()
      ensures a == if segs == [] || (|blocks[|blocks| - 1]| == maxRows && segs[|segs| - 1] >= maxBlocks) then NoSegment
                   else if |blocks[|blocks| - 1]| == maxRows then NoBlock else Ready
    {
      if segs == [] {
        a := NoSegment;
      } else if |blocks[|blocks| - 1]| == maxRows {
        a := if segs[|segs| - 1] >= maxBlocks then NoSegment else NoBlock;
      } else {
        a := Ready;
      }
    }

    /** Makes the last block one with room, opening a block or a segment where needed. It fails
        exactly when no block can have room. */
    method Reserve() returns (ok: bool)
      requires Laid()
      modifies this
      ensures ok <==> maxRows > 0
      ensures ok ==> Laid() && blocks != [] && |blocks[|blocks| - 1]| < maxRows && Flatten(blocks) == old(Flatten(blocks))
    {
      var a := GetAppender();
      if a != Ready {
        if a == NoSegment {
          SegmentAdded(segs, |blocks|, PerSegment());
          segs := segs + [1];
        } else {
          segs := segs[|segs| - 1 := segs[|segs| - 1] + 1];
        }
        ghost var was := blocks;
        blocks := blocks + [[]];
        assert blocks[..|blocks| - 1] == was;
      }
      ok := |blocks[|blocks| - 1]| != maxRows;
    }

    /** Puts rows behind those of the last block. */
    method ApplyAppend(rows: seq<R>) returns (from: nat)
      requires Laid() && blocks != [] && |blocks[|blocks| - 1]| + |rows| <= maxRows
      modifies this`blocks
      ensures Laid() && |blocks| == |old(blocks)| && Flatten(blocks) == old(Flatten(blocks)) + rows
      ensures from == |old(blocks)[|blocks| - 1]| && |blocks[|blocks| - 1]| == from + |rows|
    {
      ghost var was, z := blocks, |blocks| - 1;
      from := |blocks[|blocks| - 1]|;
      blocks := blocks[|blocks| - 1 := blocks[|blocks| - 1] + rows];
      assert blocks[..z] == was[..z];
      assert Flatten(was[..z]) + (was[z] + rows) == Flatten(was[..z]) + was[z] + rows;
    }

    /** Spills one chunk, cut from the start of the node, and records where the rows from
        appended on went. */
    method AppendOne(node: seq<R>, appended: nat) returns (ok: bool, info: Info)
      requires Valid() && appended < |node|
      modifies this
      ensures ok <==> maxRows > 0
      ensures ok ==> Valid() && info.srcOff == appended && 0 < info.len <= |node| - appended
      ensures ok ==> info.len == Take(|old(Flatten(blocks))|, |node| - appended, maxRows)
      ensures ok ==> Flatten(blocks) == old(Flatten(blocks)) + node[..info.len]
      ensures ok ==> info.blk * maxRows + info.destOff == |old(Flatten(blocks))| && info.destOff + info.len <= maxRows
    {
      ok := Reserve();
      info := Info(appended, 0, 0, 0);
      if !ok {
        return;
      }
      var left := maxRows - |blocks[|blocks| - 1]|;
      var toAppend := if |node| - appended > left then left else |node| - appended;
      FlatLength(blocks, maxRows);
      TakeIs(|Flatten(blocks)|, |blocks| - 1, |blocks[|blocks| - 1]|, |node| - appended, maxRows);
      var destOff := ApplyAppend(node[..toAppend]);
      info := Info(appended, toAppend, |blocks| - 1, destOff);
    }

    /** Spills one node, chunk by chunk. */
    method ApplyAppendInode(node: seq<R>) returns (ok: bool, infos: seq<Info>)
      requires Valid()
      modifies this
      ensures ok <==> maxRows > 0 || node == []
      ensures ok ==> Valid()
      ensures maxRows > 0 ==> Flatten(blocks) == Spilled(old(Flatten(blocks)), node, 0, maxRows)
      ensures ok ==> |Flatten(blocks)| == |old(Flatten(blocks))| + |node|
      ensures ok ==> Partition(infos, |old(Flatten(blocks))|, |node|, maxRows)
    {
      infos := [];
      var appended := 0;
      ghost var flat := Flatten(blocks);
      while appended < |node|
        invariant Valid() && appended <= |node| && |Flatten(blocks)| == |flat| + appended
        invariant maxRows == 0 ==> appended == 0
        invariant maxRows > 0 ==> Spilled(Flatten(blocks), node, appended, maxRows) == Spilled(flat, node, 0, maxRows)
        invariant Partition(infos, |flat|, appended, maxRows)
      {
        var done, info := AppendOne(node, appended);
        if !done {
          return false, infos;
        }
        Recorded(infos, info, |flat|, appended, maxRows);
        infos := infos + [info];
        appended := appended + info.len;
      }
      ok := true;
    }

    /** Spills a transaction's nodes in order. The row that was r-th over all nodes becomes
        row r after those the table held. */
    method SpillAll(nodes: seq<seq<R>>) returns (ok: bool, infos: seq<seq<Info>>)
      requires Valid()
      modifies this
      ensures ok <==> maxRows > 0 || forall i :: 0 <= i < |nodes| ==> nodes[i] == []
      ensures ok ==> Valid() && |Flatten(blocks)| == |old(Flatten(blocks))| + |Flatten(nodes)|
      ensures ok ==> Placed(infos, nodes, |old(Flatten(blocks))|, maxRows)
    {
      infos := [];
      ghost var n := |Flatten(blocks)|;
      for i := 0 to |nodes|
        invariant Valid() && |Flatten(blocks)| == n + |Flatten(nodes[..i])|
        invariant Placed(infos, nodes[..i], n, maxRows)
        invariant maxRows > 0 || forall k :: 0 <= k < i ==> nodes[k] == []
      {
        ok, infos := SpillNext(nodes, i, infos, n);
        if !ok {
          return;
        }
      }
      assert nodes[..|nodes|] == nodes;
      ok := true;
    }

    /** One more node, after i of them. */
    method SpillNext(nodes: seq<seq<R>>, i: nat, infos: seq<seq<Info>>, ghost n: nat) returns (ok: bool, infos': seq<seq<Info>>)
      requires Valid() && i < |nodes| && |Flatten(blocks)| == n + |Flatten(nodes[..i])|
      requires Placed(infos, nodes[..i], n, maxRows)
      modifies this
      ensures ok <==> maxRows > 0 || nodes[i] == []
      ensures ok ==> Valid() && |Flatten(blocks)| == n + |Flatten(nodes[..i + 1])|
      ensures ok ==> Placed(infos', nodes[..i + 1], n, maxRows)
    {
      var one;
      ok, one := ApplyAppendInode(nodes[i]);
      infos' := infos;
      if ok {
        PlacedNext(infos, one, nodes, i, n, maxRows);
        infos' := infos + [one];
      }
    }

    /** A whole spill leaves as many blocks and segments as the rows need. With a block limit
        of zero it panics at the first row. */
    method PreCommit(nodes: seq<seq<R>>) returns (ok: bool, infos: seq<seq<Info>>)
      requires Valid()
      modifies this
      ensures ok <==> maxRows > 0 || forall i :: 0 <= i < |nodes| ==> nodes[i] == []
      ensures ok ==> Valid() && Placed(infos, nodes, |old(Flatten(blocks))|, maxRows)
      ensures ok ==> |Flatten(blocks)| == |old(Flatten(blocks))| + |Flatten(nodes)|
      ensures maxRows > 0 ==> |blocks| == CeilDiv(|old(Flatten(blocks))| + |Flatten(nodes)|, maxRows)
      ensures maxRows > 0 ==> |segs| == CeilDiv(|blocks|, PerSegment())
    {
      ok, infos := SpillAll(nodes);
      if maxRows > 0 {
        CountsExact(blocks, segs, maxRows, PerSegment());
      }
    }
  }

  /** The records of each node partition it, and start where the nodes before it ended. */
  ghost predicate Placed<R>(infos: seq<seq<Info>>, nodes: seq<seq<R>>, n: nat, max: nat) {
    && |infos| == |nodes|
    && (nodes != [] ==>
          var z := |nodes| - 1;
          && Partition(infos[z], n + |Flatten(nodes[..z])|, |nodes[z]|, max)
          && Placed(infos[..z], nodes[..z], n, max))
  }

  lemma PlacedNext<R>(infos: seq<seq<Info>>, one: seq<Info>, nodes: seq<seq<R>>, i: nat, n: nat, max: nat)
    requires i < |nodes| && Placed(infos, nodes[..i], n, max) && Partition(one, n + |Flatten(nodes[..i])|, |nodes[i]|, max)
    ensures Placed(infos + [one], nodes[..i + 1], n, max)
    ensures |Flatten(nodes[..i + 1])| == |Flatten(nodes[..i])| + |nodes[i]|
  {
    assert nodes[..i + 1][..i] == nodes[..i];
    assert (infos + [one])[..i] == infos;
  }
}
