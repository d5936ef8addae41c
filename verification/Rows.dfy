/** Row bookkeeping shared by every column layout: bitmaps, their ascending
    iterators, and what deleting a set of rows means for the rows that stay. */
module Rows {

  /** The order in which a roaring bitmap's iterator yields its members. */
  ghost predicate Ascending(rows: seq<nat>) {
    forall i, j :: 0 <= i < j < |rows| ==> rows[i] < rows[j]
  }

  ghost function Elements(rows: seq<nat>): set<nat> {
    set r | r in rows
  }

  lemma {:induction false} LeastOf(s: set<nat>) returns (m: nat)
    requires s != {}
    ensures m in s && forall x :: x in s ==> m <= x
  {
    m :| m in s;
    var rest := s - {m};
    assert forall x :: x in s ==> x == m || x in rest;
    if rest != {} {
      var r := LeastOf(rest);
      m := if m < r then m else r;
    }
  }

  lemma LeastExists(s: set<nat>)
    requires s != {}
    ensures exists m :: m in s && forall x :: x in s ==> m <= x
  {
    var m := LeastOf(s);
  }

  function Least(s: set<nat>): (m: nat)
    requires s != {}
    ensures m in s && forall x :: x in s ==> m <= x
  {
    LeastExists(s);
    var m :| m in s && forall x :: x in s ==> m <= x;
    m
  }

  ghost predicate Below(rows: seq<nat>, left: set<nat>) {
    forall i, x :: 0 <= i < |rows| && x in left ==> rows[i] < x
  }

  lemma TakeLeast(rows: seq<nat>, left: set<nat>, m: nat)
    requires Ascending(rows) && Below(rows, left)
    requires m in left && forall x :: x in left ==> m <= x
    ensures Ascending(rows + [m])
    ensures Below(rows + [m], left - {m})
    ensures Elements(rows + [m]) + (left - {m}) == Elements(rows) + left
  {
    forall i, x | 0 <= i < |rows + [m]| && x in left - {m} ensures (rows + [m])[i] < x {
    }
  }

  /** A bitmap's iterator: its members, each once, smallest first. */
  method Iterate(bitmap: set<nat>) returns (rows: seq<nat>)
    ensures Ascending(rows) && Elements(rows) == bitmap
  {
    var left := bitmap;
    rows := [];
    while left != {}
      invariant Ascending(rows)
      invariant Elements(rows) + left == bitmap
      invariant Below(rows, left)
      decreases left
    {
      var m := Least(left);
      TakeLeast(rows, left, m);
      rows, left := rows + [m], left - {m};
    }
  }

  lemma PrefixElements(rows: seq<nat>, k: nat)
    requires k < |rows|
    ensures Elements(rows[..k + 1]) == Elements(rows[..k]) + {rows[k]}
  {
    assert rows[..k + 1] == rows[..k] + [rows[k]];
  }

  lemma {:induction false} ElementsCount(rows: seq<nat>)
    requires Ascending(rows)
    ensures |Elements(rows)| == |rows|
  {
    if rows != [] {
      var k := |rows| - 1;
      ElementsCount(rows[..k]);
      PrefixElements(rows, k);
      assert rows[..k + 1] == rows;
      assert rows[k] !in Elements(rows[..k]);
    }
  }

  /** The members of s at rows outside dead, in their old order. */
  function Survivors<T>(s: seq<T>, dead: set<nat>): seq<T> {
    if s == [] then []
    else
      var n := |s| - 1;
      var rest := Survivors(s[..n], dead);
      if n in dead then rest else rest + [s[n]]
  }

  /** How many rows below row stay: the row's new position if it stays itself. */
  function Rank(row: nat, dead: set<nat>): nat {
    if row == 0 then 0
    else Rank(row - 1, dead) + if row - 1 in dead then 0 else 1
  }

  /** The null bitmap after the rows in dead are gone. */
  ghost function RankedSurvivors(nulls: set<nat>, dead: set<nat>): set<nat> {
    set r | r in nulls && r !in dead :: Rank(r, dead)
  }

  lemma {:induction false} SurvivorsCount<T>(s: seq<T>, dead: set<nat>)
    ensures |Survivors(s, dead)| == Rank(|s|, dead)
  {
    if s != [] {
      SurvivorsCount(s[..|s| - 1], dead);
    }
  }

  /** Each live row is found, unchanged, at its rank. */
  lemma {:induction false} SurvivorsByRank<T>(s: seq<T>, dead: set<nat>, i: nat)
    requires i < |s| && i !in dead
    ensures Rank(i, dead) < |Survivors(s, dead)|
    ensures Survivors(s, dead)[Rank(i, dead)] == s[i]
  {
    var n := |s| - 1;
    if i < n {
      SurvivorsByRank(s[..n], dead, i);
    } else {
      SurvivorsCount(s[..n], dead);
    }
  }

  /** Ranks of live rows are distinct and in order, so no survivor is overwritten. */
  lemma {:induction false} RankMonotone(a: nat, b: nat, dead: set<nat>)
    requires a <= b
    ensures Rank(a, dead) <= Rank(b, dead)
    ensures a < b && a !in dead ==> Rank(a, dead) < Rank(b, dead)
    decreases b
  {
    if a < b {
      RankMonotone(a, b - 1, dead);
    }
  }

  /** With the dead rows listed in order, rank is a subtraction of the rows passed. */
  lemma {:induction false} RankSubtracts(row: nat, rows: seq<nat>, k: nat)
    requires Ascending(rows) && k <= |rows|
    requires forall i :: 0 <= i < k ==> rows[i] < row
    requires forall i :: k <= i < |rows| ==> row <= rows[i]
    ensures k <= row && Rank(row, Elements(rows)) == row - k
    decreases row
  {
    if row == 0 {
    } else if k > 0 && rows[k - 1] == row - 1 {
      RankSubtracts(row - 1, rows, k - 1);
    } else {
      forall i | 0 <= i < k ensures rows[i] < row - 1 {
        assert rows[i] <= rows[k - 1];
      }
      assert forall i :: 0 <= i < |rows| ==> rows[i] != row - 1;
      RankSubtracts(row - 1, rows, k);
    }
  }

  /** Deleting one more row, above those already gone, removes the one element at
      its shifted position. */
  lemma {:induction false} DeleteNext<T>(s: seq<T>, rows: seq<nat>, k: nat)
    requires Ascending(rows) && k < |rows| && rows[k] < |s|
    ensures k <= rows[k]
    ensures var was := Survivors(s, Elements(rows[..k]));
            |was| == |s| - k && rows[k] - k < |was| &&
            Survivors(s, Elements(rows[..k + 1])) == was[..rows[k] - k] + was[rows[k] - k + 1..]
  {
    var d, row := Elements(rows[..k]), rows[k];
    PrefixElements(rows, k);
    RankSubtracts(row, rows[..k], k);
    SurvivorsCount(s[..row], d);
    DeleteAbove(s, d, row);
  }

  lemma DeleteAbove<T>(s: seq<T>, dead: set<nat>, row: nat)
    requires row < |s| && forall r :: r in dead ==> r < row
    ensures Survivors(s, dead) == Survivors(s[..row], dead) + s[row..]
    ensures Survivors(s, dead + {row}) == Survivors(s[..row], dead) + s[row + 1..]
  {
    var below := s[..row];
    assert below + s[row..] == s;
    UntouchedTail(below, s[row..], dead);
    assert s[..row + 1][..row] == below;
    assert s[..row + 1] + s[row + 1..] == s;
    UntouchedTail(s[..row + 1], s[row + 1..], dead + {row});
    SameBelow(below, dead, dead + {row});
  }

  lemma OneMoreSurvives<T>(s: seq<T>, x: T, dead: set<nat>)
    requires |s| !in dead
    ensures Survivors(s + [x], dead) == Survivors(s, dead) + [x]
  {
    assert (s + [x])[..|s|] == s;
  }

  lemma {:induction false} UntouchedTail<T>(a: seq<T>, b: seq<T>, dead: set<nat>)
    requires forall r :: r in dead ==> r < |a|
    ensures Survivors(a + b, dead) == Survivors(a, dead) + b
  {
    if b == [] {
      assert a + b == a;
    } else {
      var n := |b| - 1;
      UntouchedTail(a, b[..n], dead);
      OneMoreSurvives(a + b[..n], b[n], dead);
      assert b[..n] + [b[n]] == b;
      assert a + b[..n] + [b[n]] == a + b;
      assert Survivors(a, dead) + b[..n] + [b[n]] == Survivors(a, dead) + b;
    }
  }

  lemma {:induction false} SameBelow<T>(s: seq<T>, d: set<nat>, d': set<nat>)
    requires forall r :: r < |s| ==> (r in d <==> r in d')
    ensures Survivors(s, d) == Survivors(s, d')
  {
    if s != [] {
      SameBelow(s[..|s| - 1], d, d');
    }
  }

  /** The rows first to last, as a bitmap's range call sets them. */
  function Between(first: nat, last: nat): (r: set<nat>)
    ensures forall i :: i in r <==> first <= i <= last
    decreases last
  {
    if last < first then {} else if last == 0 then {0} else Between(first, last - 1) + {last}
  }
}
