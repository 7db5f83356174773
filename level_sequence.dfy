/**
 The level-sequence decoding that `tree_to_taskgraph` performs.

 A level sequence lists the depths of a rooted tree's nodes in pre-order
 (root depth 1). Node `i >= 1` is attached to the nearest earlier node whose
 level is one less than its own; when there is none, node `i` simply gets no
 incoming edge (the source reports no error). Node indices are positions in
 the sequence, starting at 0.
 */
module LevelSequences {
  import opened TaskGraphs

  datatype Option<T> = None | Some(value: T)

  /**
   Scan `levels[j], levels[j-1], ..., levels[0]` for the first entry equal to
   `target`: the backward loop with `break` of the decoder.
   */
  function ScanBack(levels: seq<int>, target: int, j: int): (r: Option<nat>)
    requires -1 <= j < |levels|
    ensures r.Some? ==> r.value <= j && levels[r.value] == target
    decreases j + 1
  {
    if j < 0 then None
    else if levels[j] == target then Some(j)
    else ScanBack(levels, target, j - 1)
  }

  /** The scan finds the last match at or before `j`, and finds nothing exactly when there is no match. */
  lemma {:induction false} ScanBackSpec(levels: seq<int>, target: int, j: int)
    requires -1 <= j < |levels|
    ensures ScanBack(levels, target, j).Some? ==>
              forall k :: ScanBack(levels, target, j).value < k <= j ==> levels[k] != target
    ensures ScanBack(levels, target, j).None? <==> forall k :: 0 <= k <= j ==> levels[k] != target
    decreases j + 1
  {
    if j >= 0 && levels[j] != target {
      ScanBackSpec(levels, target, j - 1);
    }
  }

  /**
   The parent of node `i`: the greatest index below `i` whose level is
   `levels[i] - 1`, if any.
   */
  function ParentOf(levels: seq<int>, i: nat): (r: Option<nat>)
    requires i < |levels|
    ensures r.Some? ==> r.value < i && levels[r.value] == levels[i] - 1
  {
    ScanBack(levels, levels[i] - 1, i - 1)
  }

  /** The parent is the nearest earlier node one level up; a node has none exactly when no earlier node is one level up. */
  lemma ParentOfSpec(levels: seq<int>, i: nat)
    requires i < |levels|
    ensures ParentOf(levels, i).Some? ==>
              forall k :: ParentOf(levels, i).value < k < i ==> levels[k] != levels[i] - 1
    ensures ParentOf(levels, i).None? <==> forall k :: 0 <= k < i ==> levels[k] != levels[i] - 1
  {
    ScanBackSpec(levels, levels[i] - 1, i - 1);
  }

  /** The edges added for a child `c`: its parent edge, or nothing. */
  function ParentEdge(levels: seq<int>, c: nat): seq<Edge>
    requires c < |levels|
  {
    match ParentOf(levels, c)
    case Some(p) => [Edge(p, c)]
    case None => []
  }

  /**
   The edges the decoder has added once the children `1 .. n-1` are handled,
   in the order it adds them.
   */
  function EdgesBelow(levels: seq<int>, n: nat): seq<Edge>
    requires n <= |levels|
  {
    if n <= 1 then [] else EdgesBelow(levels, n - 1) + ParentEdge(levels, n - 1)
  }

  /**
   The edges added for children below `n` are exactly the parent edges of
   those children, each pointing forward, in increasing order of child (so no
   child has two parents and no edge is added twice).
   */
  lemma {:induction false} EdgesBelowSpec(levels: seq<int>, n: nat)
    requires n <= |levels|
    ensures forall e :: e in EdgesBelow(levels, n) ==>
              e.pred < e.succ < n && ParentOf(levels, e.succ) == Some(e.pred)
    ensures forall c :: 0 <= c < n && ParentOf(levels, c).Some? ==>
              Edge(ParentOf(levels, c).value, c) in EdgesBelow(levels, n)
    ensures forall a, b :: 0 <= a < b < |EdgesBelow(levels, n)| ==>
              EdgesBelow(levels, n)[a].succ < EdgesBelow(levels, n)[b].succ
  {
    if n > 1 {
      EdgesBelowSpec(levels, n - 1);
    }
  }

  /** All the edges `tree_to_taskgraph` adds for `levels`. */
  function DecodedEdges(levels: seq<int>): seq<Edge> {
    EdgesBelow(levels, |levels|)
  }

  /** `"task_" + std::to_string(i)`, the name each decoded node is given. */
  function TaskName(i: nat): string {
    "task_" + Decimal(i)
  }

  /** The names of the first `n` decoded nodes, in emplace order. */
  function TaskNames(n: nat): (r: seq<string>)
    ensures |r| == n
  {
    if n == 0 then [] else TaskNames(n - 1) + [TaskName(n - 1)]
  }

  /** Node `k` of the first `n` is named `task_<k>`. */
  lemma {:induction false} TaskNamesAt(n: nat, k: nat)
    requires k < n
    ensures TaskNames(n)[k] == TaskName(k)
  {
    if k < n - 1 {
      TaskNamesAt(n - 1, k);
    }
  }

  /** The graph of the taskflow that `tree_to_taskgraph(levels)` builds. */
  function Decoded(levels: seq<int>): TaskGraph {
    TaskGraph(TaskNames(|levels|), DecodedEdges(levels))
  }

  // ---------------------------------------------------------------- decimal names

  function DigitChar(d: nat): char
    requires d < 10
  {
    "0123456789"[d]
  }

  /** Each digit character stands for its digit. */
  lemma DigitCharValue(d: nat)
    requires d < 10
    ensures DigitChar(d) as int - '0' as int == d
  {
  }

  /** The decimal spelling of a non-negative integer, as `std::to_string` writes it. */
  function Decimal(n: nat): (s: string)
    ensures 1 <= |s| && forall k :: 0 <= k < |s| ==> '0' <= s[k] <= '9'
    ensures |s| > 1 ==> s[0] != '0'
    decreases n
  {
    if n < 10 then [DigitChar(n)] else Decimal(n / 10) + [DigitChar(n % 10)]
  }

  /** The value of a string of decimal digits. */
  function DigitsValue(s: string): nat
    requires forall k :: 0 <= k < |s| ==> '0' <= s[k] <= '9'
  {
    if s == [] then 0
    else 10 * DigitsValue(s[..|s| - 1]) + (s[|s| - 1] as int - '0' as int)
  }

  /** Reading back the decimal spelling gives the number: distinct nodes get distinct names. */
  lemma {:induction false} DecimalRoundTrip(n: nat)
    ensures DigitsValue(Decimal(n)) == n
  {
    var s := Decimal(n);
    DigitCharValue(n % 10);
    if n >= 10 {
      DecimalRoundTrip(n / 10);
      assert s[..|s| - 1] == Decimal(n / 10);
      assert DigitsValue(s) == 10 * (n / 10) + n % 10;
    }
  }

  lemma TaskNamesDistinct(i: nat, j: nat)
    requires i != j
    ensures TaskName(i) != TaskName(j)
  {
    DecimalRoundTrip(i);
    DecimalRoundTrip(j);
    assert Decimal(i) == TaskName(i)[5..];
    assert Decimal(j) == TaskName(j)[5..];
  }

  // ---------------------------------------------------------------- properties of the decoding

  /**
   Every decoded edge points forward, node 0 is never a child, and no node
   is the child of two edges (so no edge is added twice); the graph is acyclic.
   */
  lemma DecodedShape(levels: seq<int>)
    ensures Forward(DecodedEdges(levels))
    ensures forall e :: e in DecodedEdges(levels) ==> e.succ != 0
    ensures forall a, b :: 0 <= a < b < |DecodedEdges(levels)| ==>
              DecodedEdges(levels)[a].succ != DecodedEdges(levels)[b].succ
    ensures Acyclic(DecodedEdges(levels))
  {
    EdgesBelowSpec(levels, |levels|);
    ForwardIsAcyclic(DecodedEdges(levels));
  }

  /** The decoder's backward scan stops at the parent: a match with no match after it. */
  lemma NearestIsParent(levels: seq<int>, p: nat, c: nat)
    requires p < c < |levels| && levels[p] == levels[c] - 1
    requires forall k :: p < k < c ==> levels[k] != levels[c] - 1
    ensures ParentOf(levels, c) == Some(p)
    ensures EdgesBelow(levels, c + 1) == EdgesBelow(levels, c) + [Edge(p, c)]
  {
    ParentOfSpec(levels, c);
  }

  /** An edge `p -> c` is decoded exactly when `p` is the nearest earlier node one level up from `c`. */
  lemma DecodedEdgeIff(levels: seq<int>, p: nat, c: nat)
    requires c < |levels|
    ensures Edge(p, c) in DecodedEdges(levels) <==>
              p < c && levels[p] == levels[c] - 1 &&
              forall k :: p < k < c ==> levels[k] != levels[c] - 1
  {
    ParentOfSpec(levels, c);
    EdgesBelowSpec(levels, |levels|);
  }

  /** A well-formed level sequence: root at level 1, every later level between 2 and one more than its predecessor. */
  ghost predicate WellFormed(levels: seq<int>) {
    |levels| >= 1 && levels[0] == 1 &&
    forall i :: 1 <= i < |levels| ==> 2 <= levels[i] <= levels[i - 1] + 1
  }

  /** In a well-formed sequence every level from 1 up to `levels[k]` occurs at or before `k`. */
  lemma {:induction false} LevelOccurs(levels: seq<int>, k: nat, v: int)
    requires WellFormed(levels) && k < |levels| && 1 <= v <= levels[k]
    ensures exists j :: 0 <= j <= k && levels[j] == v
  {
    if v == levels[k] {
      assert levels[k] == v;
    } else {
      LevelOccurs(levels, k - 1, v);
      var j :| 0 <= j <= k - 1 && levels[j] == v;
      assert 0 <= j <= k && levels[j] == v;
    }
  }

  /** In a well-formed sequence every node but the root finds a parent. */
  lemma ParentExists(levels: seq<int>, i: nat)
    requires WellFormed(levels) && 1 <= i < |levels|
    ensures ParentOf(levels, i).Some?
  {
    LevelOccurs(levels, i - 1, levels[i] - 1);
    var j :| 0 <= j <= i - 1 && levels[j] == levels[i] - 1;
    ParentOfSpec(levels, i);
    assert 0 <= j < i && levels[j] == levels[i] - 1;
  }

  /** The number of children among `1 .. n-1` that find a parent is the number of edges. */
  lemma {:induction false} WellFormedEdgeCount(levels: seq<int>, n: nat)
    requires WellFormed(levels) && 1 <= n <= |levels|
    ensures |EdgesBelow(levels, n)| == n - 1
  {
    if n > 1 {
      WellFormedEdgeCount(levels, n - 1);
      ParentExists(levels, n - 1);
    }
  }

  /** A walk from the root to node `i` along decoded edges. */
  ghost function PathFromRoot(levels: seq<int>, i: nat): (p: seq<nat>)
    requires WellFormed(levels) && i < |levels|
    ensures IsPath(DecodedEdges(levels), p) && p[0] == 0 && p[|p| - 1] == i
    decreases i
  {
    if i == 0 then [0]
    else
      ParentExists(levels, i);
      var parent := ParentOf(levels, i).value;
      var q := PathFromRoot(levels, parent);
      EdgesBelowSpec(levels, |levels|);
      assert Edge(parent, i) in DecodedEdges(levels);
      q + [i]
  }

  /**
   A well-formed level sequence of length `n` decodes to a tree rooted at
   node 0: `n - 1` edges, every other node has exactly one parent and is
   reachable from the root.
   */
  lemma WellFormedIsTree(levels: seq<int>)
    requires WellFormed(levels)
    ensures |DecodedEdges(levels)| == |levels| - 1
    ensures forall i :: 1 <= i < |levels| ==> ParentOf(levels, i).Some?
    ensures forall i :: 0 <= i < |levels| ==> Reaches(DecodedEdges(levels), 0, i)
  {
    WellFormedEdgeCount(levels, |levels|);
    forall i | 1 <= i < |levels| ensures ParentOf(levels, i).Some? {
      ParentExists(levels, i);
    }
    forall i | 0 <= i < |levels| ensures Reaches(DecodedEdges(levels), 0, i) {
      var p := PathFromRoot(levels, i);
    }
  }

  /** The sequence `[1, 2, 2, 3]` decodes to the edges `0 -> 1`, `0 -> 2`, `2 -> 3`. */
  lemma Example1223()
    ensures DecodedEdges([1, 2, 2, 3]) == [Edge(0, 1), Edge(0, 2), Edge(2, 3)]
  {
    var l := [1, 2, 2, 3];
    assert ParentOf(l, 1) == Some(0);
    assert ParentOf(l, 2) == Some(0);
    assert ParentOf(l, 3) == Some(2);
    assert EdgesBelow(l, 2) == [Edge(0, 1)];
    assert EdgesBelow(l, 3) == [Edge(0, 1), Edge(0, 2)];
  }

  /** A node whose parent level never occurs earlier is silently left without an edge. */
  lemma ExampleMissingParent()
    ensures DecodedEdges([1, 3]) == []
  {
    var l := [1, 3];
    assert ScanBack(l, 2, 0) == None;
    assert EdgesBelow(l, 2) == EdgesBelow(l, 1) + ParentEdge(l, 1);
  }
}
