/** The doubly linked list behind version chains: a node sinks past every following node it
    compares below. */
module DLink {
  import opened Sequences

  class DLNode<P> {
    var prev: DLNode?<P>
    var next: DLNode?<P>
    var payload: P

    constructor (p: P)
      ensures prev == null && next == null && payload == p
    {
      prev, next, payload := null, null, p;
    }
  }

  ghost function Before<P>(nodes: seq<DLNode<P>>, i: nat): DLNode?<P>
    requires i < |nodes|
  {
    if i == 0 then null else nodes[i - 1]
  }

  ghost function After<P>(nodes: seq<DLNode<P>>, i: nat): DLNode?<P>
    requires i < |nodes|
  {
    if i == |nodes| - 1 then null else nodes[i + 1]
  }

  /** The pointers of the nodes spell out exactly this sequence, in both directions. */
  ghost predicate Linked<P>(nodes: seq<DLNode<P>>)
    reads nodes
  {
    && Distinct(nodes)
    && (forall i {:trigger nodes[i].prev} :: 0 <= i < |nodes| ==> nodes[i].prev == Before(nodes, i))
    && (forall i {:trigger nodes[i].next} :: 0 <= i < |nodes| ==> nodes[i].next == After(nodes, i))
  }

  /** Two neighbours trade places. */
  ghost function Swapped<T>(nodes: seq<T>, j: nat): (r: seq<T>)
    requires j + 1 < |nodes|
    ensures |r| == |nodes|
  {
    nodes[j := nodes[j + 1]][j + 1 := nodes[j]]
  }

  lemma SwappedDistinct<P>(nodes: seq<DLNode<P>>, j: nat)
    requires j + 1 < |nodes| && Distinct(nodes)
    ensures Distinct(Swapped(nodes, j))
    ensures forall x :: x in Swapped(nodes, j) <==> x in nodes
  {
    var r := Swapped(nodes, j);
    forall x | x in nodes ensures x in r {
      var i :| 0 <= i < |nodes| && nodes[i] == x;
      assert r[if i == j then j + 1 else if i == j + 1 then j else i] == x;
    }
  }

  /** The pointers after a sinking step at j, stated over the old order. */
  ghost predicate Relinked<P>(nodes: seq<DLNode<P>>, j: nat)
    requires j + 1 < |nodes|
    reads nodes
  {
    && (forall i :: 0 <= i < |nodes| && i != j && i != j + 1 && i != j + 2 ==> nodes[i].prev == Before(nodes, i))
    && (forall i :: 0 <= i < |nodes| && i + 1 != j && i != j && i != j + 1 ==> nodes[i].next == After(nodes, i))
    && (j > 0 ==> nodes[j - 1].next == nodes[j + 1])
    && nodes[j + 1].prev == Before(nodes, j) && nodes[j + 1].next == nodes[j]
    && nodes[j].prev == nodes[j + 1] && nodes[j].next == After(nodes, j + 1)
    && (j + 2 < |nodes| ==> nodes[j + 2].prev == nodes[j])
  }

  lemma RelinkedIsLinked<P>(nodes: seq<DLNode<P>>, j: nat)
    requires j + 1 < |nodes| && Distinct(nodes) && Relinked(nodes, j)
    ensures Linked(Swapped(nodes, j))
  {
    var r := Swapped(nodes, j);
    SwappedDistinct(nodes, j);
    forall i | 0 <= i < |r| ensures r[i].prev == Before(r, i) {
      if i == j {
        assert Before(r, i) == Before(nodes, j);
      } else if i == j + 1 {
        assert r[i] == nodes[j];
      } else if i == j + 2 {
        assert r[i] == nodes[j + 2];
      } else {
        assert r[i] == nodes[i] && Before(r, i) == Before(nodes, i);
      }
    }
    forall i | 0 <= i < |r| ensures r[i].next == After(r, i) {
      if i == j {
        assert r[i] == nodes[j + 1];
      } else if i == j + 1 {
        assert After(r, i) == After(nodes, j + 1);
      } else if i + 1 == j {
        assert r[i] == nodes[j - 1];
      } else {
        assert r[i] == nodes[i] && After(r, i) == After(nodes, i);
      }
    }
  }

  /** The relinking of one sinking step. */
  method SwapDown<P>(curr: DLNode<P>, ghost nodes: seq<DLNode<P>>, ghost j: nat, ghost repr: set<DLNode<P>>)
    requires Linked(nodes) && j + 1 < |nodes| && nodes[j] == curr
    requires forall i :: 0 <= i < |nodes| ==> nodes[i] in repr
    modifies repr`prev, repr`next
    ensures Linked(Swapped(nodes, j))
  {
    var prev, next := curr.prev, curr.next;
    assert next == nodes[j + 1] && next.next == After(nodes, j + 1);
    if prev != null {
      assert prev == nodes[j - 1];
      prev.next := next;
    }
    next.prev := prev;
    prev := next;
    next := next.next;
    prev.next := curr;
    curr.prev := prev;
    curr.next := next;
    if next != null {
      assert next == nodes[j + 2];
      next.prev := curr;
    }
    RelinkedIsLinked(nodes, j);
  }

  /** The node at position at, moved down to position end. */
  ghost function Moved<T>(s: seq<T>, at: nat, end: nat): (r: seq<T>)
    requires at <= end < |s|
    ensures |r| == |s|
    decreases end
  {
    if end == at then s else Swapped(Moved(s, at, end - 1), end - 1)
  }

  lemma {:induction false} MovedForm<T>(s: seq<T>, at: nat, end: nat)
    requires at <= end < |s|
    ensures Moved(s, at, end) == s[..at] + s[at + 1..end + 1] + [s[at]] + s[end + 1..]
    decreases end
  {
    if end > at {
      MovedForm(s, at, end - 1);
      SwapForm(s, at, end);
    }
  }

  lemma SwapForm<T>(s: seq<T>, at: nat, to: nat)
    requires at < to < |s|
    ensures Swapped(s[..at] + s[at + 1..to] + [s[at]] + s[to..], to - 1) == s[..at] + s[at + 1..to + 1] + [s[at]] + s[to + 1..]
  {
  }

  lemma MovedMembers<T>(s: seq<T>, at: nat, to: nat, repr: set<T>)
    requires at <= to < |s| && forall i :: 0 <= i < |s| ==> s[i] in repr
    ensures forall i :: 0 <= i < |s| ==> Moved(s, at, to)[i] in repr
  {
    MovedForm(s, at, to);
  }

  /** One turn of the sinking loop: the node trades places with the one after it. */
  method SinkOne<P>(l: DLNode<P>, ghost nodes: seq<DLNode<P>>, ghost at: nat, ghost j: nat, ghost repr: set<DLNode<P>>)
    requires at <= j && j + 1 < |nodes| && nodes[at] == l
    requires Linked(Moved(nodes, at, j))
    requires forall i :: 0 <= i < |nodes| ==> nodes[i] in repr
    modifies repr`prev, repr`next
    ensures Linked(Moved(nodes, at, j + 1))
  {
    StopsHere(nodes, at, j);
    MovedMembers(nodes, at, j, repr);
    SwapDown(l, Moved(nodes, at, j), j, repr);
  }

  lemma NextOfMoved<P>(nodes: seq<DLNode<P>>, at: nat, to: nat)
    requires at <= to < |nodes| && Linked(Moved(nodes, at, to))
    ensures nodes[at].next == After(nodes, to)
  {
    StopsHere(nodes, at, to);
    assert Moved(nodes, at, to)[to] == nodes[at];
  }

  /** Lets a node sink to its place. Returns the node now first in the stretch it passed,
      and the node itself if it became the last of the list. */
  method Sort<P>(l: DLNode<P>, below: (P, P) -> bool, ghost nodes: seq<DLNode<P>>, ghost at: nat, ghost repr: set<DLNode<P>>)
    returns (head: DLNode<P>, tail: DLNode?<P>, ghost to: nat)
    requires at < |nodes| && Linked(nodes) && nodes[at] == l
    requires forall i :: 0 <= i < |nodes| ==> nodes[i] in repr
    modifies repr`prev, repr`next
    ensures at <= to < |nodes|
    ensures forall i :: at < i <= to ==> below(l.payload, nodes[i].payload)
    ensures to + 1 < |nodes| ==> !below(l.payload, nodes[to + 1].payload)
    ensures Linked(Moved(nodes, at, to))
    ensures head == if to == at then l else nodes[at + 1]
    ensures tail == if to == |nodes| - 1 then l else null
  {
    head := l;
    tail := null;
    to := at;
    NextOfMoved(nodes, at, to);
    while l.next != null && below(l.payload, l.next.payload)
      invariant at <= to < |nodes|
      invariant Linked(Moved(nodes, at, to))
      invariant l.next == After(nodes, to)
      invariant forall i {:trigger nodes[i].payload} :: at < i <= to ==> below(l.payload, nodes[i].payload)
      invariant head == if to == at then l else nodes[at + 1]
      decreases |nodes| - to
    {
      if head == l {
        head := l.next;
      }
      SinkOne(l, nodes, at, to, repr);
      to := to + 1;
      NextOfMoved(nodes, at, to);
    }
    if l.next == null {
      tail := l;
    }
  }

  lemma StopsHere<P>(nodes: seq<DLNode<P>>, at: nat, to: nat)
    requires at <= to < |nodes|
    ensures Moved(nodes, at, to)[to] == nodes[at]
    ensures After(Moved(nodes, at, to), to) == if to == |nodes| - 1 then null else nodes[to + 1]
  {
    MovedForm(nodes, at, to);
  }

  lemma PartsKeep<T>(s: seq<T>, at: nat, end: nat, r: seq<T>)
    requires at <= end < |s| && r == s[..at] + s[at + 1..end + 1] + [s[at]] + s[end + 1..]
    ensures multiset(r) == multiset(s)
    ensures r[0] == if at == 0 && end > 0 then s[1] else s[0]
    ensures r[|s| - 1] == if end == |s| - 1 then s[at] else s[|s| - 1]
  {
    assert s == s[..at] + [s[at]] + s[at + 1..end + 1] + s[end + 1..];
  }

  lemma MovedKeeps<T>(s: seq<T>, at: nat, end: nat)
    requires at <= end < |s|
    ensures multiset(Moved(s, at, end)) == multiset(s)
    ensures Moved(s, at, end)[0] == if at == 0 && end > 0 then s[1] else s[0]
    ensures Moved(s, at, end)[|s| - 1] == if end == |s| - 1 then s[at] else s[|s| - 1]
  {
    MovedForm(s, at, end);
    PartsKeep(s, at, end, Moved(s, at, end));
  }

  lemma MovedPayloads<P>(nodes: seq<DLNode<P>>, payloads: seq<P>, at: nat, to: nat)
    requires at <= to < |nodes| == |payloads|
    requires forall i :: 0 <= i < |nodes| ==> payloads[i] == nodes[i].payload
    ensures forall i :: 0 <= i < |nodes| ==> Moved(payloads, at, to)[i] == Moved(nodes, at, to)[i].payload
  {
    MovedForm(nodes, at, to);
    MovedForm(payloads, at, to);
  }

  /** The order a sinking payload produces: it goes behind every leading payload it is below. */
  function Sink<P>(s: seq<P>, x: P, below: (P, P) -> bool): (r: seq<P>)
    ensures |r| == |s| + 1
  {
    if s == [] || !below(x, s[0]) then [x] + s else [s[0]] + Sink(s[1..], x, below)
  }

  lemma {:induction false} SinkStops<P>(s: seq<P>, x: P, below: (P, P) -> bool, k: nat)
    requires k <= |s|
    requires forall i :: 0 <= i < k ==> below(x, s[i])
    requires k < |s| ==> !below(x, s[k])
    ensures Sink(s, x, below) == s[..k] + [x] + s[k..]
  {
    if k > 0 {
      SinkStops(s[1..], x, below, k - 1);
      assert s[..k] == [s[0]] + s[1..][..k - 1];
      assert s[k..] == s[1..][k - 1..];
    }
  }

  lemma PartsAreSunk<P>(s: seq<P>, at: nat, end: nat, below: (P, P) -> bool)
    requires at <= end < |s|
    requires forall i :: at < i <= end ==> below(s[at], s[i])
    requires end + 1 < |s| ==> !below(s[at], s[end + 1])
    ensures s[..at] + s[at + 1..end + 1] + [s[at]] + s[end + 1..] == s[..at] + Sink(s[at + 1..], s[at], below)
  {
    var rest, k := s[at + 1..], end - at;
    assert forall i :: 0 <= i < |rest| ==> rest[i] == s[at + 1 + i];
    SinkStops(rest, s[at], below, k);
    assert rest[..k] == s[at + 1..end + 1];
    assert rest[k..] == s[end + 1..];
  }

  lemma MovedIsSunk<P>(s: seq<P>, at: nat, end: nat, below: (P, P) -> bool)
    requires at <= end < |s|
    requires forall i :: at < i <= end ==> below(s[at], s[i])
    requires end + 1 < |s| ==> !below(s[at], s[end + 1])
    ensures Moved(s, at, end) == s[..at] + Sink(s[at + 1..], s[at], below)
  {
    MovedForm(s, at, end);
    PartsAreSunk(s, at, end, below);
  }

  ghost predicate TotalPreorder<P(!new)>(atLeast: (P, P) -> bool) {
    && (forall x, y :: atLeast(x, y) || atLeast(y, x))
    && (forall x, y, z :: atLeast(x, y) && atLeast(y, z) ==> atLeast(x, z))
  }

  /** The comparison never contradicts the preorder; ties may go either way. */
  ghost predicate Respects<P(!new)>(below: (P, P) -> bool, atLeast: (P, P) -> bool) {
    forall x, y :: if below(x, y) then atLeast(y, x) else atLeast(x, y)
  }

  ghost predicate Descending<P>(s: seq<P>, atLeast: (P, P) -> bool) {
    forall i, j :: 0 <= i < j < |s| ==> atLeast(s[i], s[j])
  }

  lemma {:induction false} SinkPermutes<P>(s: seq<P>, x: P, below: (P, P) -> bool)
    ensures multiset(Sink(s, x, below)) == multiset(s) + multiset{x}
  {
    if s != [] && below(x, s[0]) {
      SinkPermutes(s[1..], x, below);
      assert s == [s[0]] + s[1..];
    }
  }

  /** What is at least everything stays so. */
  lemma {:induction false} SinkBounded<P>(s: seq<P>, x: P, below: (P, P) -> bool, atLeast: (P, P) -> bool, y: P)
    requires atLeast(y, x) && forall i :: 0 <= i < |s| ==> atLeast(y, s[i])
    ensures forall i :: 0 <= i < |Sink(s, x, below)| ==> atLeast(y, Sink(s, x, below)[i])
  {
    if s != [] && below(x, s[0]) {
      SinkBounded(s[1..], x, below, atLeast, y);
    }
  }

  lemma FrontInOrder<P>(x: P, s: seq<P>, atLeast: (P, P) -> bool)
    requires Descending(s, atLeast) && forall i :: 0 <= i < |s| ==> atLeast(x, s[i])
    ensures Descending([x] + s, atLeast)
  {
  }

  lemma {:induction false} SinkRestoresOrder<P(!new)>(s: seq<P>, x: P, below: (P, P) -> bool, atLeast: (P, P) -> bool)
    requires TotalPreorder(atLeast) && Respects(below, atLeast) && Descending(s, atLeast)
    ensures Descending(Sink(s, x, below), atLeast)
    ensures multiset(Sink(s, x, below)) == multiset(s) + multiset{x}
  {
    SinkPermutes(s, x, below);
    if s == [] || !below(x, s[0]) {
      forall i | 0 <= i < |s| ensures atLeast(x, s[i]) {
        assert atLeast(x, s[0]) && (i == 0 || atLeast(s[0], s[i]));
      }
      FrontInOrder(x, s, atLeast);
    } else {
      assert atLeast(s[0], x);
      SinkRestoresOrder(s[1..], x, below, atLeast);
      SinkBounded(s[1..], x, below, atLeast, s[0]);
      FrontInOrder(s[0], Sink(s[1..], x, below), atLeast);
    }
  }

  ghost predicate Carry<P>(nodes: seq<DLNode<P>>, payloads: seq<P>)
    reads nodes
  {
    |nodes| == |payloads| && forall i {:trigger nodes[i].payload} :: 0 <= i < |nodes| ==> nodes[i].payload == payloads[i]
  }

  /** Sort, with the resulting order of nodes and payloads. */
  method Settle<P>(l: DLNode<P>, below: (P, P) -> bool, ghost nodes: seq<DLNode<P>>, ghost payloads: seq<P>,
                   ghost at: nat, ghost repr: set<DLNode<P>>)
    returns (head: DLNode<P>, tail: DLNode?<P>, ghost now: seq<DLNode<P>>)
    requires Linked(nodes) && Carry(nodes, payloads) && at < |nodes| && nodes[at] == l
    requires forall i :: 0 <= i < |nodes| ==> nodes[i] in repr
    modifies repr`prev, repr`next
    ensures |now| == |nodes| && multiset(now) == multiset(nodes)
    ensures forall i :: 0 <= i < |now| ==> now[i] in repr
    ensures Linked(now)
    ensures Carry(now, payloads[..at] + Sink(payloads[at + 1..], payloads[at], below))
    ensures at == 0 ==> head == now[0]
    ensures at > 0 ==> head != now[0]
    ensures now[|now| - 1] == if tail == null then nodes[|nodes| - 1] else tail
  {
    ghost var to;
    head, tail, to := Sort(l, below, nodes, at, repr);
    now := Moved(nodes, at, to);
    MovedKeeps(nodes, at, to);
    MovedMembers(nodes, at, to, repr);
    MovedPayloads(nodes, payloads, at, to);
    MovedIsSunk(payloads, at, to, below);
  }

  lemma PushedFront<P>(n: DLNode<P>, nodes: seq<DLNode<P>>)
    requires Distinct(nodes) && n !in nodes && nodes != []
    requires n.prev == null && n.next == nodes[0] && nodes[0].prev == n
    requires forall i {:trigger nodes[i].prev} :: 0 < i < |nodes| ==> nodes[i].prev == nodes[i - 1]
    requires forall i {:trigger nodes[i].next} :: 0 <= i < |nodes| ==> nodes[i].next == After(nodes, i)
    ensures Linked([n] + nodes)
  {
    var r := [n] + nodes;
    forall i | 0 <= i < |r| ensures r[i].prev == Before(r, i) && r[i].next == After(r, i) {
      if i > 0 {
        assert r[i] == nodes[i - 1];
      }
    }
  }

  /** The pointers once the neighbours of position at point past it. */
  lemma Bypassed<P>(nodes: seq<DLNode<P>>, at: nat, payloads: seq<P>)
    requires at < |nodes| && Distinct(nodes) && Carry(nodes, payloads)
    requires forall i {:trigger nodes[i].prev} :: 0 <= i < |nodes| && i != at ==>
      nodes[i].prev == if i == at + 1 then Before(nodes, at) else Before(nodes, i)
    requires forall i {:trigger nodes[i].next} :: 0 <= i < |nodes| && i != at ==>
      nodes[i].next == if i + 1 == at then After(nodes, at) else After(nodes, i)
    ensures Linked(nodes[..at] + nodes[at + 1..])
    ensures Carry(nodes[..at] + nodes[at + 1..], payloads[..at] + payloads[at + 1..])
  {
    var r := nodes[..at] + nodes[at + 1..];
    forall i | 0 <= i < |r| ensures r[i].prev == Before(r, i) && r[i].next == After(r, i) {
      assert r[i] == nodes[if i < at then i else i + 1];
    }
  }

  lemma WithoutOne<T>(s: seq<T>, at: nat, repr: set<T>)
    requires at < |s| && forall i :: 0 <= i < |s| ==> s[i] in repr
    ensures var r := s[..at] + s[at + 1..];
            && |r| == |s| - 1 && (forall i :: 0 <= i < |r| ==> r[i] in repr)
            && (r != [] ==> r[0] == (if at == 0 then s[1] else s[0]) && r[|r| - 1] == if at == |s| - 1 then s[at - 1] else s[|s| - 1])
  {
  }

  /** Makes the neighbours of a node point past it. */
  method Bypass<P>(prev: DLNode?<P>, next: DLNode?<P>, ghost nodes: seq<DLNode<P>>, ghost payloads: seq<P>, ghost at: nat, ghost repr: set<DLNode<P>>)
    requires Linked(nodes) && Carry(nodes, payloads) && at < |nodes| && prev == Before(nodes, at) && next == After(nodes, at)
    requires forall i :: 0 <= i < |nodes| ==> nodes[i] in repr
    modifies repr`prev, repr`next
    ensures Linked(nodes[..at] + nodes[at + 1..])
    ensures Carry(nodes[..at] + nodes[at + 1..], payloads[..at] + payloads[at + 1..])
  {
    if prev != null {
      prev.next := next;
    }
    if next != null {
      next.prev := prev;
    }
    Bypassed(nodes, at, payloads);
  }

  /** Puts a node in front of a list. */
  method PushFront<P>(n: DLNode<P>, head: DLNode<P>, ghost nodes: seq<DLNode<P>>, ghost repr: set<DLNode<P>>)
    requires Linked(nodes) && nodes != [] && nodes[0] == head && n !in nodes && n.prev == null
    requires n in repr && forall i :: 0 <= i < |nodes| ==> nodes[i] in repr
    modifies repr`prev, repr`next
    ensures Linked([n] + nodes)
  {
    n.next := head;
    head.prev := n;
    PushedFront(n, nodes);
  }

  /** Puts a new node in front and lets it sink. */
  method InsertDLNode<P>(p: P, head: DLNode?<P>, below: (P, P) -> bool, ghost nodes: seq<DLNode<P>>,
                         ghost payloads: seq<P>, ghost repr: set<DLNode<P>>)
    returns (n: DLNode<P>, nhead: DLNode<P>, ntail: DLNode?<P>, ghost now: seq<DLNode<P>>)
    requires Linked(nodes) && Carry(nodes, payloads)
    requires forall i :: 0 <= i < |nodes| ==> nodes[i] in repr
    requires head == if nodes == [] then null else nodes[0]
    modifies repr`prev, repr`next
    ensures fresh(n) && n.payload == p
    ensures multiset(now) == multiset(nodes) + multiset{n}
    ensures forall i :: 0 <= i < |now| ==> now[i] in repr + {n}
    ensures Linked(now) && Carry(now, Sink(payloads, p, below))
    ensures |now| == |nodes| + 1 && nhead == now[0]
    ensures nodes == [] ==> ntail == n
    ensures now[|nodes|] == if ntail == null then nodes[|nodes| - 1] else ntail
  {
    n := new DLNode(p);
    if head == null {
      nhead, ntail, now := n, n, [n];
    } else {
      PushFront(n, head, nodes, repr + {n});
      assert ([p] + payloads)[1..] == payloads;
      nhead, ntail, now := Settle(n, below, [n] + nodes, [p] + payloads, 0, repr + {n});
    }
  }

  class Link<P> {
    var head: DLNode?<P>
    var tail: DLNode?<P>
    const below: (P, P) -> bool
    ghost var nodes: seq<DLNode<P>>
    ghost var contents: seq<P>
    ghost var repr: set<DLNode<P>>

    constructor (below: (P, P) -> bool)
      ensures Valid() && nodes == [] && contents == [] && repr == {} && this.below == below
    {
      head, tail := null, null;
      this.below := below;
      nodes, contents, repr := [], [], {};
    }

    /** The pointers spell out nodes, wherever head points. */
    ghost predicate Chained()
      reads this, repr
    {
      && (forall i :: 0 <= i < |nodes| ==> nodes[i] in repr)
      && Linked(nodes)
      && Carry(nodes, contents)
      && tail == if nodes == [] then null else nodes[|nodes| - 1]
    }

    ghost predicate Valid()
      reads this, repr
    {
      && Chained()
      && head == if nodes == [] then null else nodes[0]
    }

    /** Re-sorts a node whose payload changed, and takes what the sort calls the head as the
        head of the list. That is the head only if the node was the head. */
    method Update(n: DLNode<P>, ghost at: nat)
      requires Valid() && at < |nodes| && nodes[at] == n
      modifies this`head, this`tail, this`nodes, this`contents, repr`prev, repr`next
      ensures Chained() && multiset(nodes) == multiset(old(nodes))
      ensures contents == old(contents)[..at] + Sink(old(contents)[at + 1..], n.payload, below)
      ensures Valid() <==> old(n.prev) == null
    {
      ghost var now;
      var nhead, ntail;
      assert n.prev == Before(nodes, at);
      nhead, ntail, now := Settle(n, below, nodes, contents, at, repr);
      head := nhead;
      if ntail != null {
        tail := ntail;
      }
      nodes := now;
      contents := contents[..at] + Sink(contents[at + 1..], contents[at], below);
    }

    method Insert(p: P) returns (n: DLNode<P>)
      requires Valid()
      modifies this, repr`prev, repr`next
      ensures Valid() && fresh(n) && n.payload == p && repr == old(repr) + {n}
      ensures multiset(nodes) == multiset(old(nodes)) + multiset{n}
      ensures contents == Sink(old(contents), p, below)
    {
      ghost var now;
      var tail;
      n, head, tail, now := InsertDLNode(p, head, below, nodes, contents, repr);
      if tail != null {
        this.tail := tail;
      }
      nodes, contents, repr := now, Sink(contents, p, below), repr + {n};
    }

    method Delete(n: DLNode<P>, ghost at: nat)
      requires Valid() && at < |nodes| && nodes[at] == n
      modifies this`head, this`tail, this`nodes, this`contents, repr`prev, repr`next
      ensures Valid()
      ensures nodes == old(nodes)[..at] + old(nodes)[at + 1..]
      ensures contents == old(contents)[..at] + old(contents)[at + 1..]
    {
      var prev, next := n.prev, n.next;
      assert prev == Before(nodes, at) && next == After(nodes, at);
      WithoutOne(nodes, at, repr);
      Bypass(prev, next, nodes, contents, at, repr);
      if prev == null && next != null {
        head := next;
      } else if prev != null && next == null {
        tail := prev;
      } else if prev == null && next == null {
        head, tail := null, null;
      }
      nodes, contents := nodes[..at] + nodes[at + 1..], contents[..at] + contents[at + 1..];
    }

    /** A whole walk along the list, from either end. */
    method Loop(reverse: bool) returns (s: seq<P>)
      requires Valid()
      ensures |s| == |contents|
      ensures forall i :: 0 <= i < |s| ==> s[i] == contents[if reverse then |s| - 1 - i else i]
    {
      s := [];
      var curr := if reverse then tail else head;
      while curr != null
        invariant |s| <= |nodes|
        invariant curr == if |s| == |nodes| then null else nodes[if reverse then |nodes| - 1 - |s| else |s|]
        invariant forall i :: 0 <= i < |s| ==> s[i] == contents[if reverse then |nodes| - 1 - i else i]
        decreases |nodes| - |s|
      {
        s := s + [curr.payload];
        curr := if reverse then curr.prev else curr.next;
      }
    }
  }
}
