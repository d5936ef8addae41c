/** The rows a transaction has appended but not committed: nodes of bounded size and an index
    from key to row. */
module LocalRows {
  import opened Rows
  import opened Sequences
  import opened Spill

  const MAX_NODE_ROWS: nat := 10000

  datatype Node<R> = Node(rows: seq<R>, deletes: set<nat>)

  /** The last row number each key was appended at. */
  function IndexOf<R, K>(rows: seq<R>, key: R -> K): map<K, nat> {
    if rows == [] then map[] else
      var n := |rows| - 1;
      IndexOf(rows[..n], key)[key(rows[n]) := n]
  }

  lemma {:induction false} IndexIsLastRow<R, K>(rows: seq<R>, key: R -> K, k: K)
    ensures k in IndexOf(rows, key) <==> exists r :: 0 <= r < |rows| && key(rows[r]) == k
    ensures k in IndexOf(rows, key) ==>
              var r := IndexOf(rows, key)[k];
              r < |rows| && key(rows[r]) == k && forall q :: r < q < |rows| ==> key(rows[q]) != k
  {
    if rows != [] {
      var init := rows[..|rows| - 1];
      IndexIsLastRow(init, key, k);
      if r :| 0 <= r < |rows| && key(rows[r]) == k {
        assert r == |init| || init[r] == rows[r];
      }
    }
  }

  lemma IndexNext<R, K>(rows: seq<R>, r: R, key: R -> K)
    ensures IndexOf(rows + [r], key) == IndexOf(rows, key)[key(r) := |rows|]
  {
    assert (rows + [r])[..|rows|] == rows;
  }

  lemma OneFurther<R>(rows: seq<R>, data: seq<R>, start: nat, i: nat)
    requires start + i < |data|
    ensures rows + data[start..start + i + 1] == rows + data[start..start + i] + [data[start + i]]
  {
  }

  function NodeRows<R>(nodes: seq<Node<R>>): (r: seq<seq<R>>)
    ensures |r| == |nodes| && forall i :: 0 <= i < |r| ==> r[i] == nodes[i].rows
  {
    seq(|nodes|, i requires 0 <= i < |nodes| => nodes[i].rows)
  }

  /** The nodes hold the rows in order, and all but the last are full. */
  ghost predicate Split<R>(nodes: seq<Node<R>>, rows: seq<R>) {
    rows == Flatten(NodeRows(nodes)) && FullButLast(NodeRows(nodes), MAX_NODE_ROWS)
  }

  lemma ChunkAdded<R>(nodes: seq<Node<R>>, rows: seq<R>, chunk: seq<R>)
    requires nodes != [] && Split(nodes, rows) && |nodes[|nodes| - 1].rows| + |chunk| <= MAX_NODE_ROWS
    ensures var z := |nodes| - 1;
      Split(nodes[z := nodes[z].(rows := nodes[z].rows + chunk)], rows + chunk)
  {
    var z, b := |nodes| - 1, NodeRows(nodes);
    var b' := NodeRows(nodes[z := nodes[z].(rows := nodes[z].rows + chunk)]);
    assert b' == b[z := b[z] + chunk];
    assert b'[..z] == b[..z];
    assert Flatten(b[..z]) + (b[z] + chunk) == Flatten(b[..z]) + b[z] + chunk;
  }

  lemma NodeAdded<R>(nodes: seq<Node<R>>, rows: seq<R>)
    requires Split(nodes, rows) && (nodes == [] || |nodes[|nodes| - 1].rows| == MAX_NODE_ROWS)
    ensures Split(nodes + [Node([], {})], rows)
  {
    var b, b' := NodeRows(nodes), NodeRows(nodes + [Node([], {})]);
    assert b' == b + [[]];
    assert b'[..|b|] == b;
  }

  predicate Gone<R>(nodes: seq<Node<R>>, row: nat) {
    row / MAX_NODE_ROWS < |nodes| && row % MAX_NODE_ROWS in nodes[row / MAX_NODE_ROWS].deletes
  }

  /** Later nodes may be added; what is deleted stays the same. */
  ghost predicate Extends<R>(was: seq<Node<R>>, now: seq<Node<R>>) {
    && |was| <= |now|
    && forall i {:trigger now[i].deletes} :: 0 <= i < |now| ==> now[i].deletes == if i < |was| then was[i].deletes else {}
  }

  lemma ExtendsFurther<R>(a: seq<Node<R>>, b: seq<Node<R>>, c: seq<Node<R>>)
    requires Extends(a, b) && Extends(b, c)
    ensures Extends(a, c)
  {
    forall i | 0 <= i < |c| ensures c[i].deletes == if i < |a| then a[i].deletes else {} {
      assert i < |b| ==> b[i].deletes == if i < |a| then a[i].deletes else {};
    }
  }

  lemma ExtendsKeepsGone<R>(was: seq<Node<R>>, now: seq<Node<R>>)
    requires Extends(was, now)
    ensures forall row: nat :: Gone(now, row) <==> Gone(was, row)
  {
  }

  lemma SplitIgnoresDeletes<R>(nodes: seq<Node<R>>, rows: seq<R>, i: nat, deletes: set<nat>)
    requires Split(nodes, rows) && i < |nodes|
    ensures Split(nodes[i := nodes[i].(deletes := deletes)], rows)
  {
    assert NodeRows(nodes[i := nodes[i].(deletes := deletes)]) == NodeRows(nodes);
  }

  /** The rows a range delete marks. */
  predicate Covered(row: nat, start: nat, end: nat) {
    if start <= end then start <= row <= end
    else if start / MAX_NODE_ROWS == end / MAX_NODE_ROWS then false
    else
      || (row / MAX_NODE_ROWS == start / MAX_NODE_ROWS && start <= row)
      || (row / MAX_NODE_ROWS == end / MAX_NODE_ROWS && row <= end)
  }

  /** The offsets a range delete of rows start to end adds to node i. */
  ghost function Share(i: nat, start: nat, end: nat): set<nat> {
    var first, last := start / MAX_NODE_ROWS, end / MAX_NODE_ROWS;
    if first == last then if i == first then Between(start % MAX_NODE_ROWS, end % MAX_NODE_ROWS) else {}
    else Across(i, first, start % MAX_NODE_ROWS, last, end % MAX_NODE_ROWS)
  }

  ghost function Across(i: nat, first: nat, firstOffset: nat, last: nat, lastOffset: nat): set<nat> {
    if i == first then Between(firstOffset, MAX_NODE_ROWS - 1)
    else if i == last then Between(0, lastOffset)
    else if first < i < last then Between(0, MAX_NODE_ROWS)
    else {}
  }

  lemma ShareMeans(row: nat, start: nat, end: nat)
    ensures row % MAX_NODE_ROWS in Share(row / MAX_NODE_ROWS, start, end) <==> Covered(row, start, end)
  {
  }

  lemma SharesAreRange<R>(was: seq<Node<R>>, now: seq<Node<R>>, start: nat, end: nat)
    requires |was| == |now| && start / MAX_NODE_ROWS < |was| && end / MAX_NODE_ROWS < |was|
    requires forall i {:trigger now[i].deletes} :: 0 <= i < |was| ==> now[i].deletes == was[i].deletes + Share(i, start, end)
    ensures forall row: nat :: Gone(now, row) <==> Gone(was, row) || Covered(row, start, end)
  {
    forall row: nat ensures Gone(now, row) <==> Gone(was, row) || Covered(row, start, end) {
      ShareMeans(row, start, end);
    }
  }

  lemma LastFilled<R>(nodes: seq<Node<R>>, rows: seq<R>)
    requires nodes != [] && Split(nodes, rows)
    ensures |rows| == (|nodes| - 1) * MAX_NODE_ROWS + |nodes[|nodes| - 1].rows|
    ensures |nodes[|nodes| - 1].rows| < MAX_NODE_ROWS ==> |nodes[|nodes| - 1].rows| == |rows| % MAX_NODE_ROWS
  {
    FlatLength(NodeRows(nodes), MAX_NODE_ROWS);
  }

  /** Row r is at node r / MAX_NODE_ROWS, offset r % MAX_NODE_ROWS. */
  lemma SplitAt<R>(nodes: seq<Node<R>>, rows: seq<R>, r: nat)
    requires Split(nodes, rows) && r < |rows|
    ensures r / MAX_NODE_ROWS < |nodes| && r % MAX_NODE_ROWS < |nodes[r / MAX_NODE_ROWS].rows|
    ensures nodes[r / MAX_NODE_ROWS].rows[r % MAX_NODE_ROWS] == rows[r]
  {
    FlatAt(NodeRows(nodes), MAX_NODE_ROWS, r);
  }

  lemma Joined<R>(rows: seq<R>, data: seq<R>, n: nat, m: nat)
    requires n + m <= |data|
    ensures rows + data[..n] + data[n..n + m] == rows + data[..n + m]
  {
    assert data[..n] + data[n..n + m] == data[..n + m];
  }

  /** How many of len more rows fit a node that holds filled rows. */
  function Fits(filled: nat, len: nat): (n: nat)
    requires filled < MAX_NODE_ROWS
    ensures n <= len && (len > 0 ==> n > 0)
  {
    if len <= MAX_NODE_ROWS - filled then len else MAX_NODE_ROWS - filled
  }

  /** How often an append of len rows to a store whose last node holds filled rows asks for
      room: once for what fits the last node, and once for every further node's worth. */
  function Requests(filled: nat, len: nat): (n: nat)
    requires filled < MAX_NODE_ROWS
    ensures n > 0
    decreases len
  {
    var n := Fits(filled, len);
    if n == len then 1 else 1 + Requests(0, len - n)
  }

  /** How many of len rows go in with the given number of granted requests: the room left in
      the last node with the first one, and a node's worth with every further one. */
  function Carried(filled: nat, len: nat, grants: nat): nat
    requires filled < MAX_NODE_ROWS
  {
    if grants == 0 then 0
    else if len <= grants * MAX_NODE_ROWS - filled then len
    else grants * MAX_NODE_ROWS - filled
  }

  class TxnTable<R, K(==)> {
    const key: R -> K
    var inodes: seq<Node<R>>
    var rows: nat
    var index: map<K, nat>
    ghost var appended: seq<R>

    constructor (key: R -> K)
      ensures Valid() && appended == [] && forall r: nat :: !IsDeleted(r)
    {
      this.key := key;
      inodes, rows, index, appended := [], 0, map[], [];
    }

    /** There is room in the last node. */
    ghost predicate Valid()
      reads this
    {
      && Split(inodes, appended) && (inodes != [] ==> |inodes[|inodes| - 1].rows| < MAX_NODE_ROWS)
      && rows == |appended| && index == IndexOf(appended, key)
    }

    /** The rows of the last node. */
    ghost function Filled(): nat
      reads this
    {
      if inodes == [] then 0 else |inodes[|inodes| - 1].rows|
    }

    predicate IsDeleted(row: nat)
      reads this
    {
      Gone(inodes, row)
    }

    method BatchInsert(data: seq<R>, start: nat, count: nat, row: nat)
      requires start + count <= |data| && row == |appended| && index == IndexOf(appended, key)
      modifies this`index
      ensures index == IndexOf(appended + data[start..start + count], key)
    {
      ghost var done := appended;
      for i := 0 to count
        invariant |done| == row + i && done == appended + data[start..start + i] && index == IndexOf(done, key)
      {
        index := index[key(data[start + i]) := row + i];
        IndexNext(done, data[start + i], key);
        OneFurther(appended, data, start, i);
        done := done + [data[start + i]];
      }
    }

    method RegisterInsertNode()
      requires Split(inodes, appended) && (inodes == [] || |inodes[|inodes| - 1].rows| == MAX_NODE_ROWS)
      modifies this`inodes
      ensures Split(inodes, appended) && inodes == old(inodes) + [Node([], {})]
    {
      NodeAdded(inodes, appended);
      inodes := inodes + [Node([], {})];
    }

    /** Puts rows behind those of the last node, which has room for them. */
    method PutRows(chunk: seq<R>)
      requires Split(inodes, appended) && inodes != [] && |inodes[|inodes| - 1].rows| + |chunk| <= MAX_NODE_ROWS
      modifies this`inodes, this`appended
      ensures Split(inodes, appended) && appended == old(appended) + chunk
      ensures |inodes| == |old(inodes)| && Extends(old(inodes), inodes)
      ensures |inodes[|inodes| - 1].rows| == |old(inodes)[|inodes| - 1].rows| + |chunk|
    {
      var z := |inodes| - 1;
      ChunkAdded(inodes, appended, chunk);
      inodes := inodes[z := inodes[z].(rows := inodes[z].rows + chunk)];
      appended := appended + chunk;
    }

    /** A full node is followed by a new one at once. */
    method CloseFullNode()
      requires Split(inodes, appended) && inodes != [] && |inodes[|inodes| - 1].rows| <= MAX_NODE_ROWS
      modifies this`inodes
      ensures Split(inodes, appended) && inodes != [] && |inodes[|inodes| - 1].rows| < MAX_NODE_ROWS
      ensures Filled() == if old(Filled()) == MAX_NODE_ROWS then 0 else old(Filled())
      ensures Extends(old(inodes), inodes)
    {
      if |inodes[|inodes| - 1].rows| == MAX_NODE_ROWS {
        RegisterInsertNode();
      }
    }

    /** Moves as much of the batch as fits into the last node. */
    method AppendChunk(data: seq<R>, offset: nat) returns (n: nat)
      requires Valid() && inodes != [] && offset <= |data|
      modifies this
      ensures Valid() && inodes != [] && n == Fits(old(Filled()), |data| - offset) && (n < |data| - offset ==> Filled() == 0)
      ensures appended == old(appended) + data[offset..offset + n] && Extends(old(inodes), inodes)
    {
      var nodeLeft := MAX_NODE_ROWS - |inodes[|inodes| - 1].rows|;
      n := if |data| - offset <= nodeLeft then |data| - offset else nodeLeft;
      IndexAndPut(data, offset, n);
      ghost var middle := inodes;
      CloseFullNode();
      ExtendsFurther(old(inodes), middle, inodes);
    }

    /** The index and the count follow the rows. */
    method IndexAndPut(data: seq<R>, offset: nat, n: nat)
      requires Valid() && inodes != [] && offset + n <= |data| && Filled() + n <= MAX_NODE_ROWS
      modifies this
      ensures Split(inodes, appended) && rows == |appended| && index == IndexOf(appended, key)
      ensures appended == old(appended) + data[offset..offset + n]
      ensures |inodes| == |old(inodes)| && Extends(old(inodes), inodes) && Filled() == old(Filled()) + n
    {
      BatchInsert(data, offset, n, rows);
      PutRows(data[offset..offset + n]);
      rows := rows + n;
    }

    /** Appends a batch, asking the buffer manager for room once per chunk; grants is how many
        of these requests go through. A refusal ends the append without an error: what was
        appended before it stays, the rest of the batch is gone. */
    method Append(data: seq<R>, grants: nat) returns (n: nat)
      requires Valid()
      modifies this
      ensures Valid() && n <= |data| && appended == old(appended) + data[..n]
      ensures n == Carried(|old(appended)| % MAX_NODE_ROWS, |data|, grants)
      ensures n == |data| <==> data == [] || Requests(|old(appended)| % MAX_NODE_ROWS, |data|) <= grants
      ensures forall r: nat :: IsDeleted(r) == old(IsDeleted(r))
    {
      if inodes == [] {
        RegisterInsertNode();
      } else {
        LastFilled(inodes, appended);
      }
      ghost var middle := inodes;
      n := AppendChunks(data, grants);
      ExtendsFurther(old(inodes), middle, inodes);
      ExtendsKeepsGone(old(inodes), inodes);
    }

    method AppendChunks(data: seq<R>, grants: nat) returns (n: nat)
      requires Valid() && inodes != []
      modifies this
      ensures Valid() && n <= |data| && appended == old(appended) + data[..n]
      ensures n == Carried(old(Filled()), |data|, grants)
      ensures n == |data| <==> data == [] || Requests(old(Filled()), |data|) <= grants
      ensures Extends(old(inodes), inodes)
    {
      n := 0;
      var asked := 0;
      assert old(appended) + data[..0] == old(appended);
      while asked < grants
        invariant Valid() && inodes != [] && n <= |data| && appended == old(appended) + data[..n] && asked <= grants
        invariant asked + Requests(Filled(), |data| - n) == Requests(old(Filled()), |data|)
        invariant Extends(old(inodes), inodes)
        invariant n == 0 || n < |data|
        invariant n == Carried(old(Filled()), |data|, asked)
        invariant if asked == 0 then Filled() == old(Filled()) else data != [] && Filled() == 0
        decreases |data| - n, grants - asked
      {
        n := AppendNext(data, n, old(appended), old(inodes));
        asked := asked + 1;
        if n >= |data| {
          return;
        }
      }
    }

    method AppendNext(data: seq<R>, from: nat, ghost before: seq<R>, ghost nodes0: seq<Node<R>>) returns (n: nat)
      requires Valid() && inodes != [] && from <= |data| && appended == before + data[..from] && Extends(nodes0, inodes)
      modifies this
      ensures Valid() && inodes != [] && from <= n <= |data| && appended == before + data[..n] && Extends(nodes0, inodes)
      ensures from < |data| ==> from < n
      ensures n == from + Fits(old(Filled()), |data| - from) && (n < |data| ==> Filled() == 0)
      ensures old(Requests(Filled(), |data| - from)) == 1 + if n == |data| then 0 else Requests(Filled(), |data| - n)
    {
      ghost var middle := inodes;
      var m := AppendChunk(data, from);
      ExtendsFurther(nodes0, middle, inodes);
      Joined(before, data, from, m);
      n := from + m;
    }

    /** Deletes rows start to end, node by node. A row number past the last node is a panic. A
        reversed range does nothing within a node, and across nodes deletes the end of its
        first and the beginning of its last node. */
    method RangeDeleteLocalRows(start: nat, end: nat) returns (ok: bool)
      requires Valid()
      modifies this`inodes
      ensures ok <==> start / MAX_NODE_ROWS < |old(inodes)| && end / MAX_NODE_ROWS < |old(inodes)|
      ensures ok ==> Valid() && forall r: nat :: IsDeleted(r) <==> old(IsDeleted(r)) || Covered(r, start, end)
    {
      var first, firstOffset := start / MAX_NODE_ROWS, start % MAX_NODE_ROWS;
      var last, lastOffset := end / MAX_NODE_ROWS, end % MAX_NODE_ROWS;
      if first >= |inodes| || last >= |inodes| {
        return false;
      }
      if last == first {
        RangeDelete(first, firstOffset, lastOffset);
      } else {
        DeleteAcross(first, firstOffset, last, lastOffset);
      }
      SharesAreRange(old(inodes), inodes, start, end);
      ok := true;
    }

    /** The end of the first node, the beginning of the last, and all of the nodes between. */
    method DeleteAcross(first: nat, firstOffset: nat, last: nat, lastOffset: nat)
      requires Valid() && first < |inodes| && last < |inodes| && first != last
      modifies this`inodes
      ensures Valid() && |inodes| == |old(inodes)|
      ensures forall i {:trigger inodes[i].deletes} :: 0 <= i < |inodes| ==>
        inodes[i].deletes == old(inodes)[i].deletes + Across(i, first, firstOffset, last, lastOffset)
    {
      RangeDelete(first, firstOffset, MAX_NODE_ROWS - 1);
      RangeDelete(last, 0, lastOffset);
      if last > first + 1 {
        DeleteWhole(first + 1, last);
      }
    }

    /** The nodes from first up to last lose all their rows. */
    method DeleteWhole(first: nat, last: nat)
      requires Valid() && first <= last <= |inodes|
      modifies this`inodes
      ensures Valid() && |inodes| == |old(inodes)|
      ensures forall k {:trigger inodes[k].deletes} :: 0 <= k < |inodes| ==>
        inodes[k].deletes == old(inodes)[k].deletes + (if first <= k < last then Between(0, MAX_NODE_ROWS) else {})
    {
      for i := first to last
        invariant Valid() && |inodes| == |old(inodes)|
        invariant forall k {:trigger inodes[k].deletes} :: 0 <= k < |inodes| ==>
          inodes[k].deletes == old(inodes)[k].deletes + (if first <= k < i then Between(0, MAX_NODE_ROWS) else {})
      {
        RangeDelete(i, 0, MAX_NODE_ROWS);
      }
    }

    method RangeDelete(node: nat, first: nat, last: nat)
      requires Valid() && node < |inodes|
      modifies this`inodes
      ensures Valid() && |inodes| == |old(inodes)|
      ensures inodes == old(inodes)[node := old(inodes)[node].(deletes := old(inodes)[node].deletes + Between(first, last))]
    {
      SplitIgnoresDeletes(inodes, appended, node, inodes[node].deletes + Between(first, last));
      inodes := inodes[node := inodes[node].(deletes := inodes[node].deletes + Between(first, last))];
    }

    method Rows() returns (n: nat)
      requires Valid()
      ensures n == |appended|
    {
      if |inodes| == 0 {
        return 0;
      }
      LastFilled(inodes, appended);
      n := (|inodes| - 1) * MAX_NODE_ROWS + |inodes[|inodes| - 1].rows|;
    }

    method GetLocalValue(row: nat) returns (v: R)
      requires Valid() && row < |appended|
      ensures v == appended[row]
    {
      SplitAt(inodes, appended, row);
      v := inodes[row / MAX_NODE_ROWS].rows[row % MAX_NODE_ROWS];
    }

    method Find(k: K) returns (found: bool, row: nat)
      requires Valid()
      ensures found <==> exists r :: 0 <= r < |appended| && key(appended[r]) == k
      ensures found ==> row < |appended| && key(appended[row]) == k
      ensures found ==> forall q :: row < q < |appended| ==> key(appended[q]) != k
    {
      IndexIsLastRow(appended, key, k);
      found := k in index;
      row := if found then index[k] else 0;
    }

    /** Whether a batch of keys meets a key already here. */
    method BatchDedup(keys: seq<K>) returns (duplicated: bool)
      requires Valid()
      ensures duplicated <==> exists i, r :: 0 <= i < |keys| && 0 <= r < |appended| && keys[i] == key(appended[r])
    {
      for i := 0 to |keys|
        invariant forall j, r :: 0 <= j < i && 0 <= r < |appended| ==> keys[j] != key(appended[r])
      {
        IndexIsLastRow(appended, key, keys[i]);
        if keys[i] in index {
          return true;
        }
      }
      duplicated := false;
    }
  }

  lemma {:induction false} FullNodesTotal<R>(nodes: seq<seq<R>>)
    requires forall i :: 0 <= i < |nodes| ==> |nodes[i]| == MAX_NODE_ROWS
    ensures |Flatten(nodes)| == |nodes| * MAX_NODE_ROWS
  {
    if nodes != [] {
      FullNodesTotal(nodes[..|nodes| - 1]);
    }
  }

  lemma {:induction false} PlacedAt<R>(infos: seq<seq<Info>>, nodes: seq<seq<R>>, n: nat, max: nat, i: nat)
    requires Placed(infos, nodes, n, max) && i < |nodes|
    ensures Partition(infos[i], n + |Flatten(nodes[..i])|, |nodes[i]|, max)
  {
    var z := |nodes| - 1;
    if i < z {
      PlacedAt(infos[..z], nodes[..z], n, max, i);
      assert nodes[..z][..i] == nodes[..i];
    }
  }

  /** From append to block: the r-th row of a transaction, spilled into a table of n rows, has a
      record that puts it where row n + r of the table is. */
  lemma RowJourney<R>(nodes: seq<Node<R>>, rows: seq<R>, infos: seq<seq<Info>>, n: nat, max: nat, r: nat) returns (k: nat)
    requires Split(nodes, rows) && Placed(infos, NodeRows(nodes), n, max) && r < |rows|
    ensures r / MAX_NODE_ROWS < |infos| == |nodes| && k < |infos[r / MAX_NODE_ROWS]| && max > 0
    ensures r % MAX_NODE_ROWS < |nodes[r / MAX_NODE_ROWS].rows|
    ensures nodes[r / MAX_NODE_ROWS].rows[r % MAX_NODE_ROWS] == rows[r]
    ensures var info, o := infos[r / MAX_NODE_ROWS][k], r % MAX_NODE_ROWS;
      Carries(info, o) && info.blk == (n + r) / max && info.destOff + (o - info.srcOff) == (n + r) % max
  {
    var i, o, b := r / MAX_NODE_ROWS, r % MAX_NODE_ROWS, NodeRows(nodes);
    SplitAt(nodes, rows, r);
    PlacedAt(infos, b, n, max, i);
    forall k | 0 <= k < i ensures |b[..i][k]| == MAX_NODE_ROWS {
      assert b[..i][k] == b[k];
    }
    FullNodesTotal(b[..i]);
    k := RecordOf(infos[i], n + i * MAX_NODE_ROWS, |nodes[i].rows|, max, o);
  }
}
