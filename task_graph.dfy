/**
 The abstract task graph held by one taskflow of the bridge.

 A `tf::Taskflow` is reduced to what the bridge does with it: `emplace`
 appends a node (the position in `names` is the node's index, the string is
 the name given to the task), and `precede` appends a directed edge between
 two nodes. Task bodies are placeholders in the source and are not modelled.
 */
module TaskGraphs {

  /** A dependency edge `pred -> succ`: `succ` runs after `pred`. */
  datatype Edge = Edge(pred: nat, succ: nat)

  datatype TaskGraph = TaskGraph(names: seq<string>, edges: seq<Edge>) {

    /** Every edge joins two nodes that were emplaced in this graph. */
    ghost predicate Valid() {
      forall e :: e in edges ==> e.pred < |names| && e.succ < |names|
    }

    /** `emplace`: a new node, named `name`, at index `|names|`. */
    function Emplace(name: string): TaskGraph {
      TaskGraph(names + [name], edges)
    }

    /** `precede`: node `to` runs after node `from`. */
    function Precede(from: nat, to: nat): TaskGraph {
      TaskGraph(names, edges + [Edge(from, to)])
    }
  }

  /** The graph of a freshly created taskflow: no nodes, no edges. */
  const Empty: TaskGraph := TaskGraph([], [])

  /** `p` is a walk of at least one node that follows edges of `edges`. */
  ghost predicate IsPath(edges: seq<Edge>, p: seq<nat>) {
    |p| >= 1 && forall k :: 0 <= k < |p| - 1 ==> Edge(p[k], p[k + 1]) in edges
  }

  /** Some walk along `edges` leads from node `a` to node `b`. */
  ghost predicate Reaches(edges: seq<Edge>, a: nat, b: nat) {
    exists p :: IsPath(edges, p) && p[0] == a && p[|p| - 1] == b
  }

  /** No walk of one or more edges returns to the node it started from. */
  ghost predicate Acyclic(edges: seq<Edge>) {
    forall p :: IsPath(edges, p) && |p| >= 2 ==> p[0] != p[|p| - 1]
  }

  /** Every edge goes from a smaller node index to a larger one. */
  ghost predicate Forward(edges: seq<Edge>) {
    forall e :: e in edges ==> e.pred < e.succ
  }

  /** Along forward edges, a walk of one or more edges ends at a larger index than it starts. */
  lemma {:induction false} ForwardPathIncreases(edges: seq<Edge>, p: seq<nat>)
    requires Forward(edges) && IsPath(edges, p) && |p| >= 2
    ensures p[0] < p[|p| - 1]
  {
    assert Edge(p[0], p[1]) in edges;
    if |p| > 2 {
      var q := p[1..];
      assert IsPath(edges, q) by {
        forall k | 0 <= k < |q| - 1 ensures Edge(q[k], q[k + 1]) in edges {
          assert Edge(p[k + 1], p[k + 2]) in edges;
        }
      }
      ForwardPathIncreases(edges, q);
    }
  }

  /** A graph whose edges all point forward has no cycle. */
  lemma ForwardIsAcyclic(edges: seq<Edge>)
    requires Forward(edges)
    ensures Acyclic(edges)
  {
    forall p | IsPath(edges, p) && |p| >= 2 ensures p[0] != p[|p| - 1] {
      ForwardPathIncreases(edges, p);
    }
  }

  /** An edge from a node to itself is a cycle, whatever the rest of the graph. */
  lemma SelfLoopIsCycle(g: TaskGraph, a: nat)
    ensures !Acyclic(g.Precede(a, a).edges)
  {
    assert IsPath(g.Precede(a, a).edges, [a, a]);
  }

  /** Two opposite edges between distinct nodes close a cycle, whatever the rest of the graph. */
  lemma BackEdgeIsCycle(g: TaskGraph, a: nat, b: nat)
    ensures !Acyclic(g.Precede(a, b).Precede(b, a).edges)
  {
    var edges := g.Precede(a, b).Precede(b, a).edges;
    assert Edge(a, b) in edges && Edge(b, a) in edges;
    assert IsPath(edges, [a, b, a]);
  }
}
