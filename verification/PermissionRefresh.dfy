/** Refreshing permissions in place, in a transaction (xemu/block.c:2257-2280, 2521-2717). */
module PermissionRefresh {

  import opened Wrappers
  import opened BlockGraph
  import opened GraphTransaction
  import opened Reachability
  import opened TopologicalOrder
  import opened Permissions

  method GetCumulativePerm(g: State, n: NodeId) returns (perm: Perms, shared: Perms)
    ensures perm == CumulativePerm(g, n) && shared == CumulativeShared(g, n)
  {
    perm, shared := {}, ALL;
    var rest := Parents(g, n);
    while rest != {}
      invariant rest <= Parents(g, n)
      invariant forall p :: p in perm <==> exists e :: e in Parents(g, n) - rest && p in g.edges[e].perm
      invariant forall p :: p in shared <==> p in ALL && forall e :: e in Parents(g, n) - rest ==> p in g.edges[e].shared
    {
      var e :| e in rest;
      ghost var seen := Parents(g, n) - rest;
      perm := perm + g.edges[e].perm;
      shared := shared * g.edges[e].shared;
      rest := rest - {e};
      assert Parents(g, n) - rest == seen + {e};
    }
    assert Parents(g, n) - rest == Parents(g, n);
  }

  // Whether some parent a does not allow what the parent b needs.
  method ParentConflictsWith(g: State, n: NodeId, a: EdgeId) returns (conflict: bool)
    requires a in Parents(g, n)
    ensures conflict <==> exists b :: b in Parents(g, n) && b != a && !Allows(g, a, b)
  {
    var rest := Parents(g, n);
    while rest != {}
      invariant rest <= Parents(g, n)
      invariant forall b :: b in Parents(g, n) - rest && b != a ==> Allows(g, a, b)
    {
      var b :| b in rest;
      if a != b && !Allows(g, a, b) {
        return true;
      }
      rest := rest - {b};
    }
    return false;
  }

  method ParentPermsConflict(g: State, n: NodeId) returns (conflict: bool)
    ensures conflict <==> !NoConflict(g, n)
  {
    var rest := Parents(g, n);
    while rest != {}
      invariant rest <= Parents(g, n)
      invariant forall a, b :: a in Parents(g, n) - rest && b in Parents(g, n) && a != b ==> Allows(g, a, b)
    {
      var a :| a in rest;
      var c := ParentConflictsWith(g, n, a);
      if c {
        return true;
      }
      rest := rest - {a};
    }
    return false;
  }

  // The graph when all children of n but the rest have their new permissions.
  ghost function PartlyRefreshed(h: Hooks, s: State, n: NodeId, rest: set<EdgeId>): State {
    s.(edges := map e | e in s.edges ::
         if e in Children(s, n) - rest
         then s.edges[e].(perm := Derived(h, s, n, e).0, shared := Derived(h, s, n, e).1)
         else s.edges[e])
  }

  lemma PartlyRefreshedStep(h: Hooks, s: State, n: NodeId, rest: set<EdgeId>, e: EdgeId)
    requires e in rest && rest <= Children(s, n)
    ensures WithPerm(PartlyRefreshed(h, s, n, rest), e, Derived(h, s, n, e).0, Derived(h, s, n, e).1)
         == PartlyRefreshed(h, s, n, rest - {e})
  {
  }

  // The loop over the children of bdrv_node_refresh_perm.
  method SetChildPerms(tran: Transaction, h: Hooks, n: NodeId, perm: Perms, shared: Perms)
    requires tran.Valid() && n in tran.graph.nodes && tran.graph.nodes[n].drv.Some?
    requires perm == CumulativePerm(tran.graph, n) && shared == CumulativeShared(tran.graph, n)
    modifies tran
    ensures tran.Valid() && tran.graph == RefreshNode(h, old(tran.graph), n)
  {
    var s := tran.graph;
    var rest := Children(s, n);
    assert PartlyRefreshed(h, s, n, rest).edges == s.edges;
    while rest != {}
      invariant tran.Valid() && rest <= Children(s, n)
      invariant tran.graph == PartlyRefreshed(h, s, n, rest)
    {
      var e :| e in rest;
      var (p, sh) := h.childPerm(n, e, perm, shared);
      PartlyRefreshedStep(h, s, n, rest, e);
      tran.ChildSetPerm(e, p, if ForcesShare(s, e) then ALL else sh);
      rest := rest - {e};
    }
    assert PartlyRefreshed(h, s, n, rest).edges == RefreshNode(h, s, n).edges;
  }

  method NodeRefreshPerm(tran: Transaction, h: Hooks, n: NodeId) returns (ok: bool)
    requires tran.Valid() && n in tran.graph.nodes
    modifies tran
    ensures tran.Valid()
    ensures ok <==> Accepts(h, old(tran.graph), n)
    ensures tran.graph == if ok then RefreshNode(h, old(tran.graph), n) else old(tran.graph)
  {
    var perm, shared := GetCumulativePerm(tran.graph, n);
    var node := tran.graph.nodes[n];
    if Writes(perm) && !node.writable {
      return false;
    }
    if Writes(perm) && Resize !in perm && !node.sizeAligned {
      return false;
    }
    if node.drv.None? {
      return true;
    }
    if !h.checkPerm(n, perm, shared) {
      return false;
    }
    SetChildPerms(tran, h, n, perm, shared);
    return true;
  }

  method DoRefreshPerms(tran: Transaction, h: Hooks, list: seq<NodeId>) returns (r: Outcome)
    requires tran.Valid() && forall n :: n in list ==> n in tran.graph.nodes
    modifies tran
    ensures tran.Valid() && (tran.graph, r) == Refresh(h, old(tran.graph), list)
  {
    var i := 0;
    while i < |list|
      invariant 0 <= i <= |list| && tran.Valid()
      invariant tran.graph.nodes == old(tran.graph).nodes
      invariant Refresh(h, tran.graph, list[i..]) == Refresh(h, old(tran.graph), list)
    {
      assert list[i..][1..] == list[i + 1..];
      var conflict := ParentPermsConflict(tran.graph, list[i]);
      if conflict {
        return Conflict(list[i]);
      }
      var ok := NodeRefreshPerm(tran, h, list[i]);
      if !ok {
        return Rejected(list[i]);
      }
      i := i + 1;
    }
    return Refreshed;
  }

  // bdrv_refresh_perms with a transaction of its own: either everything that bs
  // reaches is up to date, or the graph is what it was.
  method RefreshPerms(g: State, h: Hooks, bs: NodeId) returns (g': State, ok: bool, ghost list: seq<NodeId>)
    requires WellFormed(g) && Acyclic(AsGraph(g)) && bs in g.nodes
    ensures Topological(AsGraph(g), list) && forall n :: n in list <==> Reaches(AsGraph(g), bs, n)
    ensures ok <==> Refresh(h, g, list).1.Refreshed?
    ensures ok ==> forall n :: Reaches(AsGraph(g), bs, n) ==> Settled(h, g', n)
    ensures ok ==> SameShape(g, g')
    ensures !ok ==> g' == g
  {
    var graph := AsGraph(g);
    var order := TopologicalList(graph, [bs]);
    list := order;
    assert forall r :: r in [bs] <==> r == bs;
    var tran := new Transaction(g);
    var r := DoRefreshPerms(tran, h, order);
    if r.Refreshed? {
      RefreshSettlesAll(h, g, list);
      RefreshAllChangesBelow(h, g, list);
      g' := tran.graph;
      ok := true;
    } else {
      tran.Abort();
      g' := tran.graph;
      ok := false;
    }
  }
}
