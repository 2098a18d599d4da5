/**
 Listing the nodes of a subgraph with every parent before its children
 (xemu/block.c:2301-2335, 2632-2644).
 */
module TopologicalOrder {

  import opened Reachability
  import opened Sequences

  // The children of a listed node are listed, behind it.
  ghost predicate ChildrenFollow(g: Graph, list: seq<nat>) {
    forall i, c :: 0 <= i < |list| && list[i] in g && c in g[list[i]] ==> c in list[i + 1..]
  }

  ghost predicate Topological(g: Graph, list: seq<nat>) {
    NoDuplicates(list) && ChildrenFollow(g, list) && forall x :: x in list ==> x in g
  }

  // Reached along at least one edge.
  ghost predicate Above(g: Graph, x: nat, y: nat) {
    x in g && exists c :: c in g[x] && Reaches(g, c, y)
  }

  // The nodes that have been found but not listed are the ones under way: they
  // all lie above bs.
  ghost predicate UnderWay(g: Graph, list: seq<nat>, found: set<nat>, bs: nat) {
    && Elems(list) <= found
    && forall x :: x in found && x !in list ==> Above(g, x, bs)
  }

  lemma NotUnderWay(g: Graph, list: seq<nat>, found: set<nat>, bs: nat)
    requires Acyclic(g) && UnderWay(g, list, found, bs) && bs in found
    ensures bs in list
  {
  }

  lemma AboveChild(g: Graph, x: nat, bs: nat, c: nat)
    requires Closed(g) && bs in g && c in g[bs] && (x == bs || Above(g, x, bs))
    ensures Above(g, x, c)
  {
    if x == bs {
      ReachesSelf(g, c);
    } else {
      var d :| d in g[x] && Reaches(g, d, bs);
      ReachesThenEdge(g, d, bs, c);
    }
  }

  lemma Prepend(g: Graph, list: seq<nat>, bs: nat)
    requires Topological(g, list) && bs in g && bs !in list && forall c :: c in g[bs] ==> c in list
    ensures Topological(g, [bs] + list)
  {
    var l := [bs] + list;
    forall i, c | 0 <= i < |l| && l[i] in g && c in g[l[i]]
      ensures c in l[i + 1..]
    {
      if i > 0 {
        assert l[i] == list[i - 1] && l[i + 1..] == list[i - 1 + 1..];
      } else {
        assert l[1..] == list;
      }
    }
  }

  method TopologicalDfs(g: Graph, list: seq<nat>, found: set<nat>, bs: nat)
    returns (list': seq<nat>, found': set<nat>)
    requires Closed(g) && Acyclic(g) && bs in g && found <= g.Keys
    requires Topological(g, list) && UnderWay(g, list, found, bs)
    ensures Topological(g, list') && found <= found' <= g.Keys
    ensures found' - Elems(list') == found - Elems(list)
    ensures Elems(list') <= found'
    ensures bs in list' && Elems(list) <= Elems(list')
    ensures forall x :: x in list' && x !in list ==> Reaches(g, bs, x)
    decreases g.Keys - found
  {
    if bs in found {
      NotUnderWay(g, list, found, bs);
      return list, found;
    }
    list', found' := list, found + {bs};
    var rest := g[bs];
    while rest != {}
      invariant rest <= g[bs]
      invariant Topological(g, list') && found + {bs} <= found' <= g.Keys
      invariant found' - Elems(list') == found - Elems(list) + {bs}
      invariant Elems(list') <= found' && Elems(list) <= Elems(list')
      invariant forall c :: c in g[bs] && c !in rest ==> c in list'
      invariant forall x :: x in list' && x !in list ==> Reaches(g, bs, x)
    {
      var c :| c in rest;
      ghost var before := list';
      forall x | x in found' && x !in list'
        ensures Above(g, x, c)
      {
        assert x in found' - Elems(list');
        AboveChild(g, x, bs, c);
      }
      list', found' := TopologicalDfs(g, list', found', c);
      forall x | x in list' && x !in before
        ensures Reaches(g, bs, x)
      {
        ReachesByEdge(g, bs, c, x);
      }
      forall x | x in before
        ensures x in list'
      {
        assert x in Elems(before);
      }
      rest := rest - {c};
    }
    assert bs in found' - Elems(list');
    Prepend(g, list', bs);
    ReachesSelf(g, bs);
    list' := [bs] + list';
    assert Elems(list') == Elems(list'[1..]) + {bs};
  }

  lemma ListedIsClosed(g: Graph, list: seq<nat>, a: nat, b: nat)
    requires Topological(g, list) && a in list && Reaches(g, a, b)
    ensures b in list
  {
    forall n, m | n in Elems(list) && n in g && m in g[n]
      ensures m in Elems(list)
    {
      var i :| 0 <= i < |list| && list[i] == n;
      assert m in list[i + 1..];
    }
    ReachedInClosedSet(g, Elems(list), a, b);
  }

  // The list for several roots, sharing the set of found nodes
  // (bdrv_list_refresh_perms), holds exactly what the roots reach.
  method TopologicalList(g: Graph, roots: seq<nat>) returns (list: seq<nat>)
    requires Closed(g) && Acyclic(g) && forall r :: r in roots ==> r in g
    ensures Topological(g, list)
    ensures forall x :: x in list <==> exists r :: r in roots && Reaches(g, r, x)
  {
    list := [];
    var found: set<nat> := {};
    var i := 0;
    while i < |roots|
      invariant 0 <= i <= |roots|
      invariant Topological(g, list) && found <= g.Keys && found == Elems(list)
      invariant forall k :: 0 <= k < i ==> roots[k] in list
      invariant forall x :: x in list ==> exists r :: r in roots && Reaches(g, r, x)
    {
      ghost var before := list;
      assert found - Elems(before) == {};
      list, found := TopologicalDfs(g, list, found, roots[i]);
      forall x | x in found
        ensures x in Elems(list)
      {
        assert x !in found - Elems(list);
      }
      forall x | x in before
        ensures x in list
      {
        assert x in Elems(before);
      }
      i := i + 1;
    }
    forall x, r | r in roots && Reaches(g, r, x)
      ensures x in list
    {
      ListedIsClosed(g, list, r, x);
    }
  }

  // Every node is listed before everything else it reaches.
  lemma {:induction false} AncestorsFirst(g: Graph, list: seq<nat>, i: nat, j: nat)
    requires Topological(g, list) && i < |list| && j < |list| && i != j && Reaches(g, list[i], list[j])
    ensures i < j
    decreases |list| - i
  {
    FirstEdge(g, list[i], list[j]);
    var c :| c in g[list[i]] && Reaches(g, c, list[j]);
    assert c in list[i + 1..];
    var k :| i < k < |list| && list[k] == c;
    if k != j {
      AncestorsFirst(g, list, k, j);
    }
  }
}
