/** Paths, reachability and acyclicity of a finite directed graph. */
module Reachability {

  // The successors of every node.
  type Graph = map<nat, set<nat>>

  ghost predicate Closed(g: Graph) {
    forall n, m :: n in g && m in g[n] ==> m in g
  }

  // A path of one or more nodes along the edges.
  ghost predicate IsPath(g: Graph, p: seq<nat>) {
    && |p| > 0
    && (forall i :: 0 <= i < |p| ==> p[i] in g)
    && (forall i :: 0 <= i < |p| - 1 ==> p[i + 1] in g[p[i]])
  }

  ghost predicate PathFromTo(g: Graph, p: seq<nat>, a: nat, b: nat) {
    IsPath(g, p) && p[0] == a && p[|p| - 1] == b
  }

  // Every node reaches itself.
  ghost predicate Reaches(g: Graph, a: nat, b: nat) {
    exists p :: PathFromTo(g, p, a, b)
  }

  // No edge lies on a cycle.
  ghost predicate Acyclic(g: Graph) {
    forall a, b :: a in g && b in g[a] ==> !Reaches(g, b, a)
  }

  lemma ReachesSelf(g: Graph, a: nat)
    requires a in g
    ensures Reaches(g, a, a)
  {
    assert PathFromTo(g, [a], a, a);
  }

  lemma ReachesByEdge(g: Graph, a: nat, b: nat, c: nat)
    requires a in g && b in g[a] && Reaches(g, b, c)
    ensures Reaches(g, a, c)
  {
    var p :| PathFromTo(g, p, b, c);
    assert PathFromTo(g, [a] + p, a, c);
  }

  lemma ReachesThenEdge(g: Graph, a: nat, b: nat, c: nat)
    requires Reaches(g, a, b) && c in g && b in g && c in g[b]
    ensures Reaches(g, a, c)
  {
    var p :| PathFromTo(g, p, a, b);
    assert PathFromTo(g, p + [c], a, c);
  }

  // A set closed under successors holds everything its members reach.
  lemma {:induction false} ClosedSetHolds(g: Graph, s: set<nat>, p: seq<nat>)
    requires IsPath(g, p) && p[0] in s
    requires forall n, m :: n in s && n in g && m in g[n] ==> m in s
    ensures p[|p| - 1] in s
  {
    if |p| > 1 {
      assert p[1] in g[p[0]];
      ClosedSetHolds(g, s, p[1..]);
    }
  }

  lemma ReachedInClosedSet(g: Graph, s: set<nat>, a: nat, b: nat)
    requires Reaches(g, a, b) && a in s
    requires forall n, m :: n in s && n in g && m in g[n] ==> m in s
    ensures b in s
  {
    var p :| PathFromTo(g, p, a, b);
    ClosedSetHolds(g, s, p);
  }

  // The first edge of a path between different nodes.
  lemma FirstEdge(g: Graph, a: nat, b: nat)
    requires Reaches(g, a, b) && a != b
    ensures a in g && exists c :: c in g[a] && Reaches(g, c, b)
  {
    var p :| PathFromTo(g, p, a, b);
    assert PathFromTo(g, p[1..], p[1], b);
    assert p[0 + 1] in g[p[0]];
  }
}
