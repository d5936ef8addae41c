/** The iterator over a column block: changed positions one by one, unchanged positions in runs. */
module ColumnIterator {
  import opened Options

  const NODE_ROWS: nat := 4096

  datatype Item = Base(start: nat, count: nat) | Version(pos: nat)
  {
    function First(): nat { if Base? then start else pos }
    function NextPos(): nat { if Base? then start + count else pos + 1 }
  }

  predicate Covers(item: Item, p: nat) {
    item.First() <= p < item.NextPos()
  }

  function MaxPos(rows: nat): (m: nat)
    ensures forall r :: 0 <= r < rows ==> r / NODE_ROWS <= m
    ensures rows > 0 ==> (rows - 1) / NODE_ROWS == m
  {
    if rows <= NODE_ROWS then 0 else (rows - 1) / NODE_ROWS
  }

  /** A changed position on its own, or a run of unchanged ones that could not be longer. */
  ghost predicate Fits(item: Item, changed: set<nat>, end: nat) {
    match item
    case Version(pos) => pos < end && pos in changed
    case Base(start, count) =>
      && count > 0 && start + count <= end
      && (forall p :: start <= p < start + count ==> p !in changed)
      && (start + count == end || start + count in changed)
  }

  /** The items go from position a to mid without gap or overlap. */
  ghost predicate Tiles(items: seq<Item>, a: nat, mid: nat, end: nat, changed: set<nat>) {
    if items == [] then a == mid
    else items[0].First() == a && Fits(items[0], changed, end) && Tiles(items[1..], items[0].NextPos(), mid, end, changed)
  }

  /** Every position is in an item, a version item exactly if it is changed. */
  lemma {:induction false} ItemOf(items: seq<Item>, a: nat, mid: nat, end: nat, changed: set<nat>, p: nat) returns (k: nat)
    requires Tiles(items, a, mid, end, changed) && a <= p < mid
    ensures k < |items| && Covers(items[k], p) && (items[k].Version? <==> p in changed)
  {
    if p < items[0].NextPos() {
      k := 0;
    } else {
      k := ItemOf(items[1..], items[0].NextPos(), mid, end, changed, p);
      k := k + 1;
    }
  }

  lemma {:induction false} ItemsFrom(items: seq<Item>, a: nat, mid: nat, end: nat, changed: set<nat>, k: nat)
    requires Tiles(items, a, mid, end, changed) && k < |items|
    ensures a <= items[k].First() < items[k].NextPos() <= end && Fits(items[k], changed, end)
  {
    if k > 0 {
      ItemsFrom(items[1..], items[0].NextPos(), mid, end, changed, k - 1);
    }
  }

  /** No position is in two items, and items come in ascending order. */
  lemma {:induction false} ItemsAscend(items: seq<Item>, a: nat, mid: nat, end: nat, changed: set<nat>, j: nat, k: nat)
    requires Tiles(items, a, mid, end, changed) && j < k < |items|
    ensures items[j].NextPos() <= items[k].First()
  {
    if j == 0 {
      ItemsFrom(items[1..], items[0].NextPos(), mid, end, changed, k - 1);
    } else {
      ItemsAscend(items[1..], items[0].NextPos(), mid, end, changed, j - 1, k - 1);
    }
  }

  class BlockIt {
    const changed: set<nat>
    const rows: nat
    var curr: Option<Item>

    /** The current item is a proper one of the block. */
    ghost predicate Valid()
      reads this
    {
      curr.Some? ==> Fits(curr.value, changed, MaxPos(rows) + 1)
    }

    constructor (changed: set<nat>, rows: nat)
      ensures this.changed == changed && this.rows == rows
      ensures Valid() && curr.Some? && curr.value.First() == 0
    {
      this.changed, this.rows := changed, rows;
      if changed == {} {
        curr := Some(Base(0, MaxPos(rows) + 1));
      } else if 0 in changed {
        curr := Some(Version(0));
      } else {
        var pos := 1;
        while pos <= MaxPos(rows)
          invariant 1 <= pos <= MaxPos(rows) + 1
          invariant forall p :: 0 <= p < pos ==> p !in changed
        {
          if pos in changed {
            break;
          }
          pos := pos + 1;
        }
        curr := Some(Base(0, pos));
      }
    }

    method Next()
      requires Valid() && curr.Some?
      modifies this
      ensures Valid()
      ensures curr.Some? <==> old(curr).value.NextPos() <= MaxPos(rows)
      ensures curr.Some? ==> curr.value.First() == old(curr).value.NextPos()
    {
      var nextPos := curr.value.NextPos();
      curr := None;
      if nextPos > MaxPos(rows) {
        return;
      }
      var start, count := nextPos, 0;
      while nextPos <= MaxPos(rows)
        invariant nextPos == start + count <= MaxPos(rows) + 1 && curr == None
        invariant forall p :: start <= p < nextPos ==> p !in changed
      {
        if nextPos in changed {
          if nextPos == start {
            curr := Some(Version(nextPos));
          }
          break;
        }
        count := count + 1;
        nextPos := nextPos + 1;
      }
      if curr.Some? {
        return;
      }
      curr := Some(Base(start, count));
    }
  }

  lemma {:induction false} TilesExtend(items: seq<Item>, a: nat, mid: nat, item: Item, end: nat, changed: set<nat>)
    requires Tiles(items, a, mid, end, changed) && item.First() == mid && Fits(item, changed, end)
    ensures Tiles(items + [item], a, item.NextPos(), end, changed)
  {
    if items != [] {
      TilesExtend(items[1..], items[0].NextPos(), mid, item, end, changed);
      assert (items + [item])[1..] == items[1..] + [item];
    }
  }

  /** A whole iteration tiles the positions of the block, and ends. */
  method Iterate(changed: set<nat>, rows: nat) returns (items: seq<Item>)
    ensures Tiles(items, 0, MaxPos(rows) + 1, MaxPos(rows) + 1, changed)
  {
    var it := new BlockIt(changed, rows);
    var end := MaxPos(rows) + 1;
    items := [];
    ghost var mid := 0;
    while it.curr.Some?
      invariant it.Valid() && it.changed == changed && it.rows == rows && mid <= end
      invariant Tiles(items, 0, mid, end, changed)
      invariant if it.curr.Some? then it.curr.value.First() == mid else mid == end
      decreases end - mid, it.curr.Some?
    {
      TilesExtend(items, 0, mid, it.curr.value, end, changed);
      items := items + [it.curr.value];
      mid := it.curr.value.NextPos();
      it.Next();
    }
  }
}
