/** The chain of update nodes of a block, newest first, with merge nodes that sum up what is
    below them. */
module UpdateChain {
  import opened Options
  import opened Wire
  import Rows
  import opened DLink

  type Timestamp = t: nat | t < UINT64

  const UNCOMMIT: Timestamp := UINT64 - 1

  type Cell = (nat, nat)

  /** A delete bitmap is allocated when first needed; a missing one has no rows, but must not
      be asked for one. */
  datatype Bitmap = Nil | Bits(rows: set<nat>)
  {
    function Members(): set<nat> { if Nil? then {} else rows }

    function Or(o: Bitmap): Bitmap {
      if o.Nil? then this else Bits(Members() + o.rows)
    }
  }

  lemma OrAssociates(a: Bitmap, b: Bitmap, c: Bitmap)
    ensures a.Or(b).Or(c) == a.Or(b.Or(c)) && Nil.Or(a) == a && a.Or(Nil) == a
  {
  }

  /** One node's own row deletes and column cells. */
  datatype Update<V> = Update(start: Timestamp, commit: Timestamp, merge: bool, deletes: Bitmap, cells: map<Cell, V>)
  {
    predicate Committed() { commit != UNCOMMIT }

    /** This node with another's deletes and cells merged in; the other's cells win. */
    function Merged(o: Update<V>): Update<V> {
      this.(deletes := deletes.Or(o.deletes), cells := cells + o.cells)
    }

    /** The stamped node of a transaction, not a merge. */
    predicate Counts() { Committed() && !merge }

    function Compare(o: Update<V>): int {
      if commit < o.commit then -1
      else if commit > o.commit then 1
      else if commit == UNCOMMIT then
        if start < o.start then -1 else if start > o.start then 1 else 0
      else if o.merge then -1
      else 1
    }
  }

  function Below<V>(): (Update<V>, Update<V>) -> bool {
    (a: Update<V>, b: Update<V>) => a.Compare(b) < 0
  }

  /** The order behind Compare: later commits first, unstamped nodes before all stamped ones
      by start, a merge node before the node it starts from. */
  predicate AtLeast<V>(a: Update<V>, b: Update<V>) {
    || a.commit > b.commit
    || (a.commit == b.commit && if a.Committed() then a.merge || !b.merge else a.start >= b.start)
  }

  ghost function Order<V>(): (Update<V>, Update<V>) -> bool {
    (a: Update<V>, b: Update<V>) => AtLeast(a, b)
  }

  lemma CompareRespectsOrder<V(!new)>()
    ensures TotalPreorder(Order<V>())
    ensures Respects(Below<V>(), Order<V>())
  {
  }

  /** The transactions' committed nodes, in chain order. */
  ghost function Log<V>(s: seq<Update<V>>): seq<Update<V>> {
    if s == [] then [] else if s[0].Counts() then [s[0]] + Log(s[1..]) else Log(s[1..])
  }

  /** Every row some node deletes. */
  ghost function Deletes<V>(log: seq<Update<V>>): Bitmap {
    if log == [] then Nil else log[0].deletes.Or(Deletes(log[1..]))
  }

  /** Cell values when the last node of the sequence to write a cell wins. */
  ghost function OldestCells<V>(log: seq<Update<V>>): map<Cell, V> {
    if log == [] then map[] else log[0].cells + OldestCells(log[1..])
  }

  /** Cell values when the first node of the sequence to write a cell wins. */
  ghost function NewestCells<V>(log: seq<Update<V>>): map<Cell, V> {
    if log == [] then map[] else NewestCells(log[1..]) + log[0].cells
  }

  /** What the merge walk collects: it skips unstamped nodes and stops at the first merge node. */
  ghost function Collected<V>(s: seq<Update<V>>): (Bitmap, map<Cell, V>) {
    if s == [] then (Nil, map[])
    else if !s[0].Committed() then Collected(s[1..])
    else if s[0].merge then (s[0].deletes, s[0].cells)
    else var rest := Collected(s[1..]); (s[0].deletes.Or(rest.0), s[0].cells + rest.1)
  }

  /** The first stamp the walk meets. */
  ghost function FirstStamp<V>(s: seq<Update<V>>): Timestamp {
    if s == [] then UNCOMMIT else if s[0].Committed() then s[0].commit else FirstStamp(s[1..])
  }

  ghost function MergeOf<V>(s: seq<Update<V>>): Update<V> {
    Update(FirstStamp(s), FirstStamp(s), true, Collected(s).0, Collected(s).1)
  }

  /** Every merge node sums up exactly the committed nodes after it. */
  ghost predicate MergesSum<V>(s: seq<Update<V>>) {
    s == [] || (
      && MergesSum(s[1..])
      && (s[0].merge ==>
            && Log(s[1..]) != [] && s[0].commit == Log(s[1..])[0].commit
            && s[0].deletes == Deletes(Log(s[1..]))
            && s[0].cells == OldestCells(Log(s[1..]))))
  }

  ghost predicate StampsUpTo<V>(s: seq<Update<V>>, ts: nat) {
    forall i :: 0 <= i < |s| && s[i].Committed() ==> s[i].commit <= ts
  }

  lemma {:induction false} LogStamped<V>(s: seq<Update<V>>)
    ensures forall i :: 0 <= i < |Log(s)| ==> Log(s)[i] in s && Log(s)[i].Counts()
  {
    if s != [] {
      LogStamped(s[1..]);
    }
  }

  /** Stopping at the first merge node loses nothing. */
  lemma {:induction false} StopLosesNothing<V>(s: seq<Update<V>>)
    requires MergesSum(s)
    ensures Collected(s) == (Deletes(Log(s)), OldestCells(Log(s)))
    ensures FirstStamp(s) == if Log(s) == [] then UNCOMMIT else Log(s)[0].commit
    ensures FirstStamp(s) == UNCOMMIT <==> Log(s) == []
  {
    LogStamped(s);
    if s != [] && !(s[0].Committed() && s[0].merge) {
      StopLosesNothing(s[1..]);
    }
  }

  lemma {:induction false} FirstStampIsLatest<V>(s: seq<Update<V>>)
    requires Descending(s, Order())
    ensures FirstStamp(s) != UNCOMMIT ==> StampsUpTo(s, FirstStamp(s))
    ensures FirstStamp(s) == UNCOMMIT <==> forall i :: 0 <= i < |s| ==> !s[i].Committed()
  {
    if s != [] {
      if s[0].Committed() {
        forall i | 0 < i < |s| ensures s[i].commit <= s[0].commit {
          assert Order()(s[0], s[i]);
        }
      } else {
        FirstStampIsLatest(s[1..]);
        assert forall i :: 0 < i < |s| ==> s[i] == s[1..][i - 1];
      }
    }
  }

  /** An unstamped node may enter anywhere. */
  lemma {:induction false} SinkUnstamped<V>(s: seq<Update<V>>, x: Update<V>)
    requires MergesSum(s) && !x.Committed() && !x.merge
    ensures MergesSum(Sink(s, x, Below())) && Log(Sink(s, x, Below())) == Log(s)
  {
    if s != [] && Below()(x, s[0]) {
      SinkUnstamped(s[1..], x);
      assert Sink(s, x, Below())[1..] == Sink(s[1..], x, Below());
    } else {
      assert Sink(s, x, Below())[1..] == s;
    }
  }

  /** A newly stamped node sinks past unstamped nodes only, to the front of the log. */
  lemma {:induction false} SinkStamped<V>(s: seq<Update<V>>, x: Update<V>)
    requires MergesSum(s) && x.Counts()
    requires forall i :: 0 <= i < |s| && s[i].Committed() ==> s[i].commit < x.commit
    ensures MergesSum(Sink(s, x, Below())) && Log(Sink(s, x, Below())) == [x] + Log(s)
  {
    if s != [] && Below()(x, s[0]) {
      SinkStamped(s[1..], x);
      assert Sink(s, x, Below())[1..] == Sink(s[1..], x, Below());
      LogStamped(s[1..]);
      assert !s[0].Committed() && !s[0].merge;
    } else {
      assert Sink(s, x, Below())[1..] == s;
    }
  }

  /** A merge node sinks past unstamped nodes and the merge nodes of its own stamp. */
  lemma {:induction false} SinkMerge<V>(s: seq<Update<V>>, x: Update<V>)
    requires MergesSum(s) && x.merge && x.Committed() && StampsUpTo(s, x.commit)
    requires Log(s) != [] && x.commit == Log(s)[0].commit && x.deletes == Deletes(Log(s)) && x.cells == OldestCells(Log(s))
    ensures MergesSum(Sink(s, x, Below())) && Log(Sink(s, x, Below())) == Log(s)
  {
    if s != [] && Below()(x, s[0]) {
      assert !s[0].Counts();
      SinkMerge(s[1..], x);
      assert Sink(s, x, Below())[1..] == Sink(s[1..], x, Below());
    } else {
      assert Sink(s, x, Below())[1..] == s;
    }
  }

  /** Steps of a chain: a transaction opens a node, writes to its own unstamped node, stamps
      the node at the head, or a merge node is added. */
  datatype Event<V> = Add(start: Timestamp) | Write(at: nat, deletes: Bitmap, cells: map<Cell, V>) | Commit(ts: Timestamp) | Merge

  ghost predicate Enabled<V>(s: seq<Update<V>>, e: Event<V>) {
    match e
    case Add(_) => true
    case Write(at, _, _) => at < |s| && !s[at].Committed() && !s[at].merge
    case Commit(ts) =>
      && s != [] && !s[0].Committed() && !s[0].merge && ts != UNCOMMIT
      && forall i :: 0 <= i < |s| && s[i].Committed() ==> s[i].commit < ts
    case Merge => true
  }

  ghost function Next<V>(s: seq<Update<V>>, e: Event<V>): seq<Update<V>>
    requires Enabled(s, e)
  {
    match e
    case Add(start) => Sink(s, Update(start, UNCOMMIT, false, Nil, map[]), Below())
    case Write(at, deletes, cells) => s[at := s[at].(deletes := deletes, cells := cells)]
    case Commit(ts) => Sink(s[1..], s[0].(commit := ts), Below())
    case Merge => if FirstStamp(s) == UNCOMMIT then s else Sink(s, MergeOf(s), Below())
  }

  /** The nodes committed along a run, newest first. */
  ghost function History<V>(s: seq<Update<V>>, e: Event<V>, log: seq<Update<V>>): seq<Update<V>>
    requires Enabled(s, e)
  {
    if e.Commit? then [s[0].(commit := e.ts)] + log else log
  }

  ghost predicate Inv<V>(s: seq<Update<V>>) {
    Descending(s, Order()) && MergesSum(s)
  }

  lemma {:induction false} WriteKeeps<V>(s: seq<Update<V>>, at: nat, x: Update<V>)
    requires MergesSum(s) && at < |s| && !s[at].Committed() && !s[at].merge
    requires !x.Committed() && !x.merge
    ensures MergesSum(s[at := x]) && Log(s[at := x]) == Log(s)
  {
    if at > 0 {
      WriteKeeps(s[1..], at - 1, x);
      assert s[at := x][1..] == s[1..][at - 1 := x];
    } else {
      assert s[at := x][1..] == s[1..];
    }
  }

  lemma SinkInOrder<V(!new)>(s: seq<Update<V>>, x: Update<V>)
    requires Descending(s, Order())
    ensures Descending(Sink(s, x, Below()), Order())
  {
    CompareRespectsOrder<V>();
    SinkRestoresOrder(s, x, Below(), Order());
  }

  lemma CommitKeeps<V(!new)>(s: seq<Update<V>>, ts: Timestamp)
    requires Inv(s) && Enabled(s, Commit(ts))
    ensures Inv(Next(s, Commit(ts))) && Log(Next(s, Commit(ts))) == [s[0].(commit := ts)] + Log(s)
  {
    SinkStamped(s[1..], s[0].(commit := ts));
    SinkInOrder(s[1..], s[0].(commit := ts));
  }

  lemma MergeKeeps<V(!new)>(s: seq<Update<V>>)
    requires Inv(s)
    ensures Inv(Next(s, Merge)) && Log(Next(s, Merge)) == Log(s)
  {
    FirstStampIsLatest(s);
    if FirstStamp(s) != UNCOMMIT {
      StopLosesNothing(s);
      SinkMerge(s, MergeOf(s));
      SinkInOrder(s, MergeOf(s));
    }
  }

  lemma OverwriteInOrder<V>(s: seq<Update<V>>, at: nat, deletes: Bitmap, cells: map<Cell, V>)
    requires Descending(s, Order()) && at < |s|
    ensures Descending(s[at := s[at].(deletes := deletes, cells := cells)], Order())
  {
    var s' := s[at := s[at].(deletes := deletes, cells := cells)];
    forall i, j | 0 <= i < j < |s'| ensures Order()(s'[i], s'[j]) {
      assert Order()(s[i], s[j]);
    }
  }

  lemma StepKeeps<V(!new)>(s: seq<Update<V>>, e: Event<V>, log: seq<Update<V>>)
    requires Inv(s) && Enabled(s, e) && log == Log(s)
    ensures Inv(Next(s, e)) && Log(Next(s, e)) == History(s, e, log)
  {
    match e
    case Add(start) =>
      var x: Update<V> := Update(start, UNCOMMIT, false, Nil, map[]);
      SinkUnstamped(s, x);
      SinkInOrder(s, x);
    case Write(at, deletes, cells) =>
      WriteKeeps(s, at, s[at].(deletes := deletes, cells := cells));
      OverwriteInOrder(s, at, deletes, cells);
    case Commit(ts) => CommitKeeps(s, ts);
    case Merge => MergeKeeps(s);
  }

  /** A run of chain steps from the empty chain. */
  ghost predicate Run<V>(ss: seq<seq<Update<V>>>, es: seq<Event<V>>) {
    && |ss| == |es| + 1 && ss[0] == []
    && forall i {:trigger es[i]} :: 0 <= i < |es| ==> Enabled(ss[i], es[i]) && ss[i + 1] == Next(ss[i], es[i])
  }

  /** The nodes committed in the first n steps, newest first. */
  ghost function Committed<V>(ss: seq<seq<Update<V>>>, es: seq<Event<V>>, n: nat): seq<Update<V>>
    requires Run(ss, es) && n <= |es|
  {
    if n == 0 then [] else History(ss[n - 1], es[n - 1], Committed(ss, es, n - 1))
  }

  lemma {:induction false} RunKeeps<V(!new)>(ss: seq<seq<Update<V>>>, es: seq<Event<V>>, n: nat)
    requires Run(ss, es) && n <= |es|
    ensures Inv(ss[n]) && Log(ss[n]) == Committed(ss, es, n)
  {
    if n > 0 {
      RunKeeps(ss, es, n - 1);
      RunStep(ss, es, n - 1, es[n - 1]);
      StepKeeps(ss[n - 1], es[n - 1], Committed(ss, es, n - 1));
    }
  }

  lemma RunStep<V>(ss: seq<seq<Update<V>>>, es: seq<Event<V>>, i: nat, e: Event<V>)
    requires Run(ss, es) && i < |es| && e == es[i]
    ensures Enabled(ss[i], e) && ss[i + 1] == Next(ss[i], e)
  {
  }

  /** In every run nodes without a timestamp come first, those that started later in front, and
      then the others by their timestamps, a merge node in front of the node it starts from. */
  lemma ChainOrder<V(!new)>(ss: seq<seq<Update<V>>>, es: seq<Event<V>>, n: nat, i: nat, j: nat)
    requires Run(ss, es) && n <= |es| && i < j < |ss[n]|
    ensures var newer, older := ss[n][i], ss[n][j];
            if newer.commit == UNCOMMIT then older.commit == UNCOMMIT ==> newer.start >= older.start
            else older.commit != UNCOMMIT && newer.commit >= older.commit && (newer.commit == older.commit && older.merge ==> newer.merge)
  {
    RunKeeps(ss, es, n);
    assert Order()(ss[n][i], ss[n][j]);
  }

  /** Whatever the run, a merge node added now carries the deletes of every transaction
      committed so far and the latest commit stamp; of a cell written more than once it
      carries the oldest value. */
  lemma MergeSumsHistory<V(!new)>(ss: seq<seq<Update<V>>>, es: seq<Event<V>>)
    requires Run(ss, es)
    ensures var s, log := ss[|es|], Committed(ss, es, |es|);
      && (FirstStamp(s) == UNCOMMIT <==> log == [])
      && (log != [] ==> MergeOf(s) == Update(log[0].commit, log[0].commit, true, Deletes(log), OldestCells(log)))
  {
    RunKeeps(ss, es, |es|);
    LogStamped(ss[|es|]);
    StopLosesNothing(ss[|es|]);
  }

  lemma {:induction false} DeletesMean<V>(log: seq<Update<V>>, row: nat)
    ensures row in Deletes(log).Members() <==> exists i :: 0 <= i < |log| && row in log[i].deletes.Members()
  {
    if log != [] {
      DeletesMean(log[1..], row);
      if i :| 0 <= i < |log| && row in log[i].deletes.Members() {
        assert i == 0 || log[i] == log[1..][i - 1];
      }
    }
  }

  /** Position i is the newest node to write the cell. */
  ghost predicate NewestWriter<V>(log: seq<Update<V>>, k: Cell, i: nat) {
    i < |log| && k in log[i].cells && forall j :: 0 <= j < i ==> k !in log[j].cells
  }

  ghost predicate OldestWriter<V>(log: seq<Update<V>>, k: Cell, i: nat) {
    i < |log| && k in log[i].cells && forall j :: i < j < |log| ==> k !in log[j].cells
  }

  lemma {:induction false} CellsWritten<V>(log: seq<Update<V>>, k: Cell)
    ensures k in OldestCells(log) <==> exists i :: 0 <= i < |log| && k in log[i].cells
    ensures k in NewestCells(log) <==> k in OldestCells(log)
  {
    if log != [] {
      CellsWritten(log[1..], k);
      if i :| 0 <= i < |log| && k in log[i].cells {
        assert i == 0 || log[i] == log[1..][i - 1];
      }
    }
  }

  lemma {:induction false} OldestMeans<V>(log: seq<Update<V>>, k: Cell, i: nat)
    requires OldestWriter(log, k, i)
    ensures k in OldestCells(log) && OldestCells(log)[k] == log[i].cells[k]
  {
    var rest := log[1..];
    if i > 0 {
      assert OldestWriter(rest, k, i - 1);
      OldestMeans(rest, k, i - 1);
    } else {
      CellsWritten(rest, k);
      assert forall j :: 0 <= j < |rest| ==> rest[j] == log[j + 1];
    }
  }

  lemma {:induction false} NewestMeans<V>(log: seq<Update<V>>, k: Cell, i: nat)
    requires NewestWriter(log, k, i)
    ensures k in NewestCells(log) && NewestCells(log)[k] == log[i].cells[k]
  {
    if i > 0 {
      var rest := log[1..];
      assert forall j :: 0 <= j < |rest| ==> rest[j] == log[j + 1];
      NewestMeans(rest, k, i - 1);
    }
  }

  lemma CellsMean<V>(log: seq<Update<V>>, k: Cell)
    ensures k in OldestCells(log) <==> exists i :: 0 <= i < |log| && k in log[i].cells
    ensures k in NewestCells(log) <==> k in OldestCells(log)
    ensures forall i: nat :: OldestWriter(log, k, i) ==> OldestCells(log)[k] == log[i].cells[k]
    ensures forall i: nat :: NewestWriter(log, k, i) ==> NewestCells(log)[k] == log[i].cells[k]
  {
    CellsWritten(log, k);
    forall i: nat | OldestWriter(log, k, i) ensures OldestCells(log)[k] == log[i].cells[k] {
      OldestMeans(log, k, i);
    }
    forall i: nat | NewestWriter(log, k, i) ensures NewestCells(log)[k] == log[i].cells[k] {
      NewestMeans(log, k, i);
    }
  }

  lemma {:induction false} WritersExist<V>(log: seq<Update<V>>, k: Cell) returns (i: nat, j: nat)
    requires exists i :: 0 <= i < |log| && k in log[i].cells
    ensures NewestWriter(log, k, i) && OldestWriter(log, k, j)
  {
    var n := |log| - 1;
    if n > 0 && exists i :: 0 <= i < n && k in log[..n][i].cells {
      i, j := WritersExist(log[..n], k);
      if k in log[n].cells {
        j := n;
      }
      assert forall m :: 0 <= m < n ==> log[m] == log[..n][m];
    } else {
      assert forall m :: 0 <= m < n ==> log[m] == log[..n][m];
      i, j := n, n;
    }
  }

  /** The merge shows the newest values exactly when no cell's newest writer disagrees with
      its oldest. */
  lemma MergedCellsAreNewestIff<V>(log: seq<Update<V>>)
    ensures OldestCells(log) == NewestCells(log) <==>
      forall k: Cell, i: nat, j: nat :: NewestWriter(log, k, i) && OldestWriter(log, k, j) ==> log[i].cells[k] == log[j].cells[k]
  {
    if OldestCells(log) == NewestCells(log) {
      forall k: Cell, i: nat, j: nat | NewestWriter(log, k, i) && OldestWriter(log, k, j)
        ensures log[i].cells[k] == log[j].cells[k]
      {
        CellsMean(log, k);
      }
    }
    if forall k: Cell, i: nat, j: nat :: NewestWriter(log, k, i) && OldestWriter(log, k, j) ==> log[i].cells[k] == log[j].cells[k] {
      forall k: Cell
        ensures k in OldestCells(log) <==> k in NewestCells(log)
        ensures k in OldestCells(log) ==> OldestCells(log)[k] == NewestCells(log)[k]
      {
        CellsMean(log, k);
        if k in OldestCells(log) {
          var i, j := WritersExist(log, k);
        }
      }
    }
  }

  /** Transactions that write no cell in common. */
  ghost predicate Disjoint<V>(log: seq<Update<V>>) {
    forall i, j, k: Cell :: 0 <= i < j < |log| && k in log[i].cells ==> k !in log[j].cells
  }

  /** With disjoint writes a merge node is right in its columns too. */
  lemma DisjointMergeIsExact<V(!new)>(ss: seq<seq<Update<V>>>, es: seq<Event<V>>)
    requires Run(ss, es) && Committed(ss, es, |es|) != [] && Disjoint(Committed(ss, es, |es|))
    ensures MergeOf(ss[|es|]).cells == NewestCells(Committed(ss, es, |es|))
  {
    MergeSumsHistory(ss, es);
    var log := Committed(ss, es, |es|);
    forall k: Cell, i: nat, j: nat | NewestWriter(log, k, i) && OldestWriter(log, k, j)
      ensures log[i].cells[k] == log[j].cells[k]
    {
      assert i <= j;
    }
    MergedCellsAreNewestIff(log);
  }

  lemma Extend<V>(ss: seq<seq<Update<V>>>, es: seq<Event<V>>, e: Event<V>)
    requires Run(ss, es) && Enabled(ss[|es|], e)
    ensures Run(ss + [Next(ss[|es|], e)], es + [e])
  {
    var ss', es' := ss + [Next(ss[|es|], e)], es + [e];
    forall i | 0 <= i < |es'| ensures Enabled(ss'[i], es'[i]) && ss'[i + 1] == Next(ss'[i], es'[i]) {
      if i < |es| {
        assert es'[i] == es[i] && ss'[i] == ss[i] && ss'[i + 1] == ss[i + 1];
      }
    }
  }

  /** One transaction opens a node on a committed chain, writes cells and commits. */
  lemma OneWrite(ss: seq<seq<Update<int>>>, es: seq<Event<int>>, start: Timestamp, ts: Timestamp, cells: map<Cell, int>)
    returns (tt: seq<seq<Update<int>>>, fs: seq<Event<int>>)
    requires Run(ss, es) && start < ts != UNCOMMIT
    requires forall i :: 0 <= i < |ss[|es|]| ==> ss[|es|][i].commit < ts
    ensures Run(tt, fs) && tt[|fs|] == [Update(start, ts, false, Nil, cells)] + ss[|es|]
  {
    var s, u: Update<int>, w: Update<int> :=
      ss[|es|], Update(start, UNCOMMIT, false, Nil, map[]), Update(start, UNCOMMIT, false, Nil, cells);
    Extend(ss, es, Add(start));
    tt, fs := ss + [[u] + s], es + [Add(start)];
    Extend(tt, fs, Write(0, Nil, cells));
    tt, fs := tt + [[w] + s], fs + [Write(0, Nil, cells)];
    assert ([w] + s)[1..] == s;
    Extend(tt, fs, Commit(ts));
    tt, fs := tt + [Next([w] + s, Commit(ts))], fs + [Commit(ts)];
  }

  lemma TwoNodes(a: Update<int>, b: Update<int>)
    requires a.Counts() && b.Counts()
    ensures Log([a, b]) == [a, b]
    ensures OldestCells([a, b]) == a.cells + b.cells && NewestCells([a, b]) == b.cells + a.cells
  {
    assert [a, b][1..] == [b];
    assert Log([b]) == [b];
    assert OldestCells([b]) == b.cells && NewestCells([b]) == b.cells;
  }

  /** Two committed writes of one cell: the merge node shows the first one. */
  lemma MergeShowsOldestValue(first: int, second: int) returns (ss: seq<seq<Update<int>>>, es: seq<Event<int>>)
    ensures Run(ss, es)
    ensures NewestCells(Committed(ss, es, |es|)) == map[(0, 0) := second]
    ensures MergeOf(ss[|es|]).cells == map[(0, 0) := first]
  {
    var m1, m2 := map[(0, 0) := first], map[(0, 0) := second];
    ss, es := OneWrite([[]], [], 1, 2, m1);
    ss, es := OneWrite(ss, es, 3, 4, m2);
    var c1: Update<int>, c2: Update<int> := Update(1, 2, false, Nil, m1), Update(3, 4, false, Nil, m2);
    MergeSumsHistory(ss, es);
    RunKeeps(ss, es, |es|);
    TwoNodes(c2, c1);
    assert ss[|es|] == [c2, c1];
  }

  /** The rest of the merge walk, with what it has gathered. */
  ghost function WalkFrom<V>(merge: Option<Update<V>>, s: seq<Update<V>>): Option<Update<V>>
    decreases |s|
  {
    if s == [] then merge
    else if !s[0].Committed() then WalkFrom(merge, s[1..])
    else
      var m := if merge.None? then Update(s[0].commit, s[0].commit, true, Nil, map[]) else merge.value;
      if s[0].merge then Some(m.Merged(s[0])) else WalkFrom(Some(m.Merged(s[0])), s[1..])
  }

  lemma MergedTwice<V>(m: Update<V>, a: Update<V>, b: Update<V>)
    ensures m.Merged(a).Merged(b) == m.Merged(a.Merged(b))
  {
    OrAssociates(m.deletes, a.deletes, b.deletes);
    assert m.cells + a.cells + b.cells == m.cells + (a.cells + b.cells);
  }

  /** What the next counting node and the rest amount to. */
  lemma MergeOfNext<V>(s: seq<Update<V>>, m: Update<V>)
    requires s != [] && s[0].Committed()
    ensures m.Merged(MergeOf(s)) == if s[0].merge then m.Merged(s[0]) else m.Merged(s[0].Merged(MergeOf(s[1..])))
  {
  }

  lemma {:induction false} WalkGathers<V>(m: Update<V>, s: seq<Update<V>>)
    ensures WalkFrom(Some(m), s) == Some(m.Merged(MergeOf(s)))
    decreases |s|
  {
    if s == [] {
      assert m.Merged(MergeOf(s)) == m;
    } else if !s[0].Committed() {
      WalkGathers(m, s[1..]);
    } else {
      MergeOfNext(s, m);
      if !s[0].merge {
        WalkGathers(m.Merged(s[0]), s[1..]);
        MergedTwice(m, s[0], MergeOf(s[1..]));
      }
    }
  }

  lemma {:induction false} WalkCollects<V>(s: seq<Update<V>>)
    ensures WalkFrom(None, s) == if FirstStamp(s) == UNCOMMIT then None else Some(MergeOf(s))
    decreases |s|
  {
    if s != [] {
      if !s[0].Committed() {
        WalkCollects(s[1..]);
      } else {
        var m := Update(s[0].commit, s[0].commit, true, Nil, map[]);
        WalkGathers(m, s);
        assert WalkFrom(None, s) == WalkFrom(Some(m), s);
        OrAssociates(MergeOf(s).deletes, Nil, Nil);
        assert m.Merged(MergeOf(s)) == MergeOf(s);
      }
    }
  }

  datatype WriteResult = Written | Conflict | Crashes | Hangs

  /** No row from first to last is in the bitmap. */
  method AllFree(deletes: Bitmap, first: nat, last: nat) returns (free: bool)
    ensures free <==> forall x :: first <= x <= last ==> x !in deletes.Members()
  {
    var i := first;
    while i <= last
      invariant first <= i && (i <= last + 1 || i == first)
      invariant forall x :: first <= x < i ==> x !in deletes.Members()
    {
      if deletes.Bits? && i in deletes.rows {
        assert i in deletes.Members();
        return false;
      }
      i := i + 1;
    }
    free := true;
  }

  lemma StampAt<V>(s: seq<Update<V>>, at: nat, u: Update<V>)
    requires at < |s|
    ensures s[at := u][..at] == s[..at] && s[at := u][at + 1..] == s[at + 1..]
  {
  }

  /** The chain object. Its View is the sequence of updates the theorems above speak of. */
  class BlockUpdateChain<V(!new)> {
    const link: Link<Update<V>>
    var latestMerge: DLNode?<Update<V>>
    var latestCommit: DLNode?<Update<V>>

    ghost predicate Valid()
      reads this, link, link.repr
    {
      && link.Valid() && link.below == Below() && Inv(link.contents)
    }

    constructor ()
      ensures Valid() && fresh(link) && link.repr == {} && link.contents == []
      ensures latestMerge == null && latestCommit == null
    {
      link := new Link(Below());
      latestMerge, latestCommit := null, null;
    }

    method AddNode(start: Timestamp) returns (n: DLNode<Update<V>>)
      requires Valid()
      modifies link, link.repr`prev, link.repr`next
      ensures Valid() && fresh(n) && link.repr == old(link.repr) + {n}
      ensures link.contents == Next(old(link.contents), Add(start))
      ensures n.payload == Update(start, UNCOMMIT, false, Nil, map[])
      ensures multiset(link.contents) == multiset(old(link.contents)) + multiset{n.payload}
    {
      StepKeeps(link.contents, Add(start), Log(link.contents));
      n := link.Insert(Update(start, UNCOMMIT, false, Nil, map[]));
      SinkPermutes(old(link.contents), n.payload, Below());
    }

    /** The node stands at this position and its transaction has not stamped it. */
    ghost predicate Holds(n: DLNode<Update<V>>, at: nat)
      reads this, link
    {
      at < |link.nodes| == |link.contents| && link.nodes[at] == n && !link.contents[at].Committed() && !link.contents[at].merge
    }

    method Store(n: DLNode<Update<V>>, deletes: Bitmap, cells: map<Cell, V>, ghost at: nat)
      requires Valid() && Holds(n, at)
      modifies link`contents, n`payload
      ensures Valid()
      ensures link.contents == Next(old(link.contents), Write(at, deletes, cells))
    {
      StepKeeps(link.contents, Write(at, deletes, cells), Log(link.contents));
      n.payload := n.payload.(deletes := deletes, cells := cells);
      link.contents := link.contents[at := n.payload];
    }

    /** Deletes rows first to last, all or none: none if one is already deleted here. The row
        counter has 32 bits; a range up to the last number makes it wrap, and the check then
        goes round for ever unless the node has deleted a row at all. */
    method DeleteLocked(n: DLNode<Update<V>>, first: nat, last: nat, ghost at: nat) returns (r: WriteResult)
      requires Valid() && Holds(n, at) && first < UINT32 && last < UINT32
      requires forall x :: x in n.payload.deletes.Members() ==> x < UINT32
      modifies link`contents, n`payload
      ensures Valid()
      ensures r.Hangs? <==> last == UINT32 - 1 && old(n.payload).deletes.Members() == {}
      ensures r.Conflict? <==> if last == UINT32 - 1 then old(n.payload).deletes.Members() != {}
                               else exists x :: first <= x <= last && x in old(n.payload).deletes.Members()
      ensures !r.Crashes?
      ensures link.contents ==
        if r.Written? then Next(old(link.contents), Write(at, old(n.payload).deletes.Or(Bits(Rows.Between(first, last))), old(n.payload).cells))
        else old(link.contents)
    {
      var deletes := n.payload.deletes;
      var free := AllFree(deletes, first, last);
      if !free {
        return Conflict;
      }
      if last == UINT32 - 1 {
        free := AllFree(deletes, 0, last);
        return if free then Hangs else Conflict;
      }
      Store(n, deletes.Or(Bits(Rows.Between(first, last))), n.payload.cells, at);
      r := Written;
    }

    /** Writes one cell, unless the row is deleted here or the cell already written. Without a
        delete bitmap the question for the row crashes. */
    method UpdateLocked(n: DLNode<Update<V>>, row: nat, col: nat, v: V, ghost at: nat) returns (r: WriteResult)
      requires Valid() && Holds(n, at)
      modifies link`contents, n`payload
      ensures Valid() && !r.Hangs?
      ensures r.Crashes? <==> old(n.payload).deletes.Nil?
      ensures r.Conflict? <==> row in old(n.payload).deletes.Members() || (old(n.payload).deletes.Bits? && (col, row) in old(n.payload).cells)
      ensures link.contents ==
        if r.Written? then Next(old(link.contents), Write(at, old(n.payload).deletes, old(n.payload).cells[(col, row) := v]))
        else old(link.contents)
    {
      if n.payload.deletes.Nil? {
        return Crashes;
      }
      if row in n.payload.deletes.rows || (col, row) in n.payload.cells {
        return Conflict;
      }
      Store(n, n.payload.deletes, n.payload.cells[(col, row) := v], at);
      r := Written;
    }

    /** Stamps a node and lets it sink; a node stamped before is a panic. If the node was the
        head and the timestamp is the latest, it becomes the newest of the log. If it was not
        the head, the chain is broken. */
    method PrepareCommit(n: DLNode<Update<V>>, ts: Timestamp, ghost at: nat) returns (ok: bool)
      requires Valid() && at < |link.nodes| && link.nodes[at] == n
      modifies this`latestCommit, link, n`payload, link.repr`prev, link.repr`next
      ensures ok <==> !old(n.payload).Committed()
      ensures !ok ==> Valid() && link.contents == old(link.contents)
      ensures ok ==> latestCommit == (if ts != UNCOMMIT then n else old(latestCommit)) && link.repr == old(link.repr)
      ensures ok ==> link.Chained() && n.payload == old(n.payload).(commit := ts)
      ensures ok ==> link.contents == old(link.contents)[..at] + Sink(old(link.contents)[at + 1..], n.payload, Below())
      ensures ok && at > 0 ==> !Valid()
      ensures ok && at == 0 && Enabled(old(link.contents), Commit(ts)) ==>
        && Valid() && link.contents == Next(old(link.contents), Commit(ts))
        && Log(link.contents) == [n.payload] + Log(old(link.contents))
    {
      if n.payload.commit != UNCOMMIT {
        return false;
      }
      ghost var s := link.contents;
      n.payload := n.payload.(commit := ts);
      link.contents := s[at := n.payload];
      StampAt(s, at, n.payload);
      assert link.Valid() && n.prev == Before(link.nodes, at);
      link.Update(n, at);
      if n.payload.commit != UNCOMMIT {
        latestCommit := n;
      }
      if at == 0 && Enabled(s, Commit(ts)) {
        StepKeeps(s, Commit(ts), Log(s));
        assert link.contents == Next(s, Commit(ts));
      }
      ok := true;
    }

    /** The merge walk from the head: nothing while no stamped node is met. */
    method Walk() returns (merge: Option<Update<V>>)
      requires Valid()
      ensures merge == if FirstStamp(link.contents) == UNCOMMIT then None else Some(MergeOf(link.contents))
    {
      merge := None;
      ghost var s, i := link.contents, 0;
      WalkCollects(s);
      var curr := link.head;
      while curr != null
        invariant i <= |s| && curr == if i == |s| then null else link.nodes[i]
        invariant WalkFrom(merge, s[i..]) == WalkFrom(None, s)
        decreases |s| - i
      {
        var u := curr.payload;
        assert u == s[i] == s[i..][0] && s[i..][1..] == s[i + 1..];
        if u.commit != UNCOMMIT {
          if merge.None? {
            merge := Some(Update(u.commit, u.commit, true, Nil, map[]));
          }
          merge := Some(merge.value.Merged(u));
          if u.merge {
            break;
          }
        }
        curr := curr.next;
        i := i + 1;
      }
    }

    /** Sums up the committed nodes down to the next merge node and links the sum in. */
    method AddMergeNode() returns (n: DLNode?<Update<V>>)
      requires Valid()
      modifies this`latestMerge, link, link.repr`prev, link.repr`next
      ensures Valid()
      ensures link.contents == Next(old(link.contents), Merge)
      ensures n == null <==> Log(old(link.contents)) == []
      ensures n != null ==>
        && fresh(n) && latestMerge == n && link.repr == old(link.repr) + {n}
        && n.payload.merge && n.payload.commit == Log(old(link.contents))[0].commit
        && n.payload.deletes == Deletes(Log(link.contents)) && n.payload.cells == OldestCells(Log(link.contents))
      ensures Log(link.contents) == Log(old(link.contents))
      ensures n == null ==> latestMerge == old(latestMerge) && link.repr == old(link.repr)
    {
      ghost var s := link.contents;
      StepKeeps(s, Merge, Log(s));
      StopLosesNothing(s);
      var merge := Walk();
      if merge.None? {
        return null;
      }
      n := link.Insert(merge.value);
      latestMerge := n;
    }
  }
}
