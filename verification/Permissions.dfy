/**
 Permissions: what the parents of a node need and share, what a node's driver
 derives from it for its children, and the refresh of a subgraph
 (xemu/block.c:2238-2299, 2521-2665, 2773-2927).
 */
module Permissions {

  import opened Wrappers
  import opened BlockGraph
  import opened Reachability
  import opened TopologicalOrder

  // ------------------------------------------------------------- default functions

  function FilterDefaultPerms(perm: Perms, shared: Perms): (Perms, Perms) {
    (perm * ALL, shared * ALL)
  }

  function DefaultPermsForCow(n: Node, perm: Perms, shared: Perms): (Perms, Perms) {
    var writable := Write in shared || n.inactive;
    (perm * {ConsistentRead},
     {ConsistentRead, WriteUnchanged} + if writable then {Write, Resize} else {})
  }

  function DefaultPermsForStorage(n: Node, role: Role, perm: Perms, shared: Perms): (Perms, Perms) {
    var (perm, shared) := FilterDefaultPerms(perm, shared);
    var perm := if role.metadata && n.writable then perm + {Write, Resize} else perm;
    var perm := if role.metadata && !n.noIo then perm + {ConsistentRead} else perm;
    var shared := if role.metadata then shared - {Write, Resize} else shared;
    var shared := if role.data then shared - {Resize} else shared;
    var perm := if role.data && WriteUnchanged in perm then perm + {Write} else perm;
    var perm := if role.data && Write in perm then perm + {Resize} else perm;
    var shared := if n.inactive || n.roWriteShare then shared + {Write, Resize} else shared;
    (perm, shared)
  }

  // The roles bdrv_default_perms accepts.
  predicate DefaultRole(role: Role) {
    && (role.filtered ==> !role.data && !role.metadata && !role.cow)
    && (role.cow ==> !role.data && !role.metadata)
    && (role.filtered || role.cow || role.data || role.metadata)
  }

  function DefaultPerms(n: Node, role: Role, perm: Perms, shared: Perms): (Perms, Perms)
    requires DefaultRole(role)
  {
    if role.filtered then FilterDefaultPerms(perm, shared)
    else if role.cow then DefaultPermsForCow(n, perm, shared)
    else DefaultPermsForStorage(n, role, perm, shared)
  }

  // Permission by permission, what a storage child needs and shares.
  ghost predicate StorageMeaning(n: Node, role: Role, perm: Perms, shared: Perms, r: (Perms, Perms)) {
    var meta := role.metadata && n.writable;
    var lenient := n.inactive || n.roWriteShare;
    && (ConsistentRead in r.0 <==> ConsistentRead in perm || (role.metadata && !n.noIo))
    && (WriteUnchanged in r.0 <==> WriteUnchanged in perm)
    && (Write in r.0 <==> Write in perm || meta || (role.data && WriteUnchanged in perm))
    && (Resize in r.0 <==> Resize in perm || meta || (role.data && (Write in r.0 || WriteUnchanged in perm)))
    && (ConsistentRead in r.1 <==> ConsistentRead in shared)
    && (WriteUnchanged in r.1 <==> WriteUnchanged in shared)
    && (Write in r.1 <==> (Write in shared && !role.metadata) || lenient)
    && (Resize in r.1 <==> (Resize in shared && !role.metadata && !role.data) || lenient)
  }

  // A backing file is only read, and may change if the parents can deal with it.
  ghost predicate CowMeaning(n: Node, perm: Perms, shared: Perms, r: (Perms, Perms)) {
    && r.0 == (if ConsistentRead in perm then {ConsistentRead} else {})
    && ConsistentRead in r.1 && WriteUnchanged in r.1
    && (Write in r.1 <==> Write in shared || n.inactive)
    && (Resize in r.1 <==> Write in shared || n.inactive)
  }

  // A metadata child is shared with no writer unless the node is lenient, a backing
  // file is never written, and a written data child may be resized.
  lemma DefaultPermsMeaning(n: Node, role: Role, perm: Perms, shared: Perms)
    requires DefaultRole(role) && perm <= ALL && shared <= ALL
    ensures var r := DefaultPerms(n, role, perm, shared);
      && (role.filtered ==> r == (perm, shared))
      && (role.cow ==> CowMeaning(n, perm, shared, r))
      && (!role.filtered && !role.cow ==> StorageMeaning(n, role, perm, shared, r))
      && (role.metadata && !n.inactive && !n.roWriteShare ==> r.1 !! {Write, Resize})
      && (role.data && Write in r.0 ==> Resize in r.0)
  {
    assert perm * ALL == perm && shared * ALL == shared;
    assert perm * {ConsistentRead} == if ConsistentRead in perm then {ConsistentRead} else {};
  }

  // Needing less and sharing more above means needing less and sharing more below.
  lemma DefaultPermsMonotone(n: Node, role: Role, perm: Perms, shared: Perms, perm': Perms, shared': Perms)
    requires DefaultRole(role) && perm' <= perm && shared <= shared'
    ensures DefaultPerms(n, role, perm', shared').0 <= DefaultPerms(n, role, perm, shared).0
    ensures DefaultPerms(n, role, perm, shared).1 <= DefaultPerms(n, role, perm', shared').1
  {
  }

  // ------------------------------------------------------------------- derivation

  // The driver callbacks: .bdrv_child_perm of the node, and .bdrv_check_perm.
  datatype Hooks = Hooks(
    childPerm: (NodeId, EdgeId, Perms, Perms) -> (Perms, Perms),
    checkPerm: (NodeId, Perms, Perms) -> bool)

  function CumulativePerm(s: State, n: NodeId): Perms {
    set e, p | e in Parents(s, n) && p in s.edges[e].perm :: p
  }

  function CumulativeShared(s: State, n: NodeId): Perms {
    set p | p in ALL && forall e :: e in Parents(s, n) ==> p in s.edges[e].shared
  }

  predicate ForcesShare(s: State, e: EdgeId)
    requires e in s.edges
  {
    s.edges[e].bs.Some? && s.edges[e].bs.value in s.nodes && s.nodes[s.edges[e].bs.value].forceShare
  }

  // bdrv_child_perm: what node n needs and shares on its child e.
  function Derived(h: Hooks, s: State, n: NodeId, e: EdgeId): (Perms, Perms)
    requires e in s.edges
  {
    var (perm, shared) := h.childPerm(n, e, CumulativePerm(s, n), CumulativeShared(s, n));
    (perm, if ForcesShare(s, e) then ALL else shared)
  }

  predicate Allows(s: State, a: EdgeId, b: EdgeId)
    requires a in s.edges && b in s.edges
  {
    s.edges[b].perm <= s.edges[a].shared
  }

  ghost predicate NoConflict(s: State, n: NodeId) {
    forall a, b :: a in Parents(s, n) && b in Parents(s, n) && a != b ==> Allows(s, a, b)
  }

  predicate Writes(perm: Perms) {
    Write in perm || WriteUnchanged in perm
  }

  // A node that is written needs to be writable,
  predicate WritableEnough(node: Node, perm: Perms) {
    Writes(perm) ==> node.writable
  }

  // and needs an aligned size unless it may be resized.
  predicate AlignedEnough(node: Node, perm: Perms) {
    Writes(perm) && Resize !in perm ==> node.sizeAligned
  }

  // The checks of bdrv_node_refresh_perm.
  predicate Accepts(h: Hooks, s: State, n: NodeId)
    requires n in s.nodes
  {
    var perm := CumulativePerm(s, n);
    && WritableEnough(s.nodes[n], perm)
    && AlignedEnough(s.nodes[n], perm)
    && (s.nodes[n].drv.Some? ==> h.checkPerm(n, perm, CumulativeShared(s, n)))
  }

  // The children of n carry the permissions that n's driver derives.
  ghost predicate ChildrenDerived(h: Hooks, s: State, n: NodeId) {
    forall e :: e in Children(s, n) ==> (s.edges[e].perm, s.edges[e].shared) == Derived(h, s, n, e)
  }

  // Node n is up to date.
  ghost predicate Settled(h: Hooks, s: State, n: NodeId) {
    && n in s.nodes
    && NoConflict(s, n)
    && Accepts(h, s, n)
    && (s.nodes[n].drv.Some? ==> ChildrenDerived(h, s, n))
  }

  // What an up-to-date node means for its parents: nobody needs what another does not
  // share, a read-only node is not written, and neither is one of unaligned size that
  // must not be resized.
  lemma SettledMeaning(h: Hooks, s: State, n: NodeId, a: EdgeId, b: EdgeId, p: Perm)
    requires Settled(h, s, n) && a in Parents(s, n) && b in Parents(s, n) && p in s.edges[a].perm
    ensures a != b ==> p in s.edges[b].shared
    ensures p == Write || p == WriteUnchanged ==>
      s.nodes[n].writable && (s.nodes[n].sizeAligned || exists c :: c in Parents(s, n) && Resize in s.edges[c].perm)
  {
    assert p in CumulativePerm(s, n);
    if a != b {
      assert Allows(s, b, a);
    }
  }

  // And a node is refused only for one of these reasons, or by its driver.
  lemma UnsettledMeaning(h: Hooks, s: State, n: NodeId)
    requires n in s.nodes && !(NoConflict(s, n) && Accepts(h, s, n))
    ensures || (exists a, b, p :: a in Parents(s, n) && b in Parents(s, n) && a != b && p in s.edges[a].perm && p !in s.edges[b].shared)
            || (exists a, p :: a in Parents(s, n) && p in s.edges[a].perm && (p == Write || p == WriteUnchanged)
                               && (!s.nodes[n].writable || !s.nodes[n].sizeAligned))
            || (s.nodes[n].drv.Some? && !h.checkPerm(n, CumulativePerm(s, n), CumulativeShared(s, n)))
  {
    if !NoConflict(s, n) {
      var b, a :| b in Parents(s, n) && a in Parents(s, n) && b != a && !Allows(s, b, a);
      var p :| p in s.edges[a].perm && p !in s.edges[b].shared;
    } else if Writes(CumulativePerm(s, n)) {
      var p :| p in CumulativePerm(s, n) && (p == Write || p == WriteUnchanged);
      var a :| a in Parents(s, n) && p in s.edges[a].perm;
    }
  }

  // ---------------------------------------------------------------------- refresh

  // The edges after the children of n got new permissions.
  function RefreshNode(h: Hooks, s: State, n: NodeId): State {
    if n in s.nodes && s.nodes[n].drv.Some? then
      s.(edges := map e | e in s.edges ::
           if e in Children(s, n)
           then s.edges[e].(perm := Derived(h, s, n, e).0, shared := Derived(h, s, n, e).1)
           else s.edges[e])
    else s
  }

  datatype Outcome = Refreshed | Conflict(n: NodeId) | Rejected(n: NodeId)

  // bdrv_do_refresh_perms.
  ghost function Refresh(h: Hooks, s: State, list: seq<NodeId>): (State, Outcome)
    requires forall n :: n in list ==> n in s.nodes
    decreases |list|
  {
    if list == [] then (s, Refreshed)
    else if !NoConflict(s, list[0]) then (s, Conflict(list[0]))
    else if !Accepts(h, s, list[0]) then (s, Rejected(list[0]))
    else Refresh(h, RefreshNode(h, s, list[0]), list[1..])
  }

  // Only permissions differ, and only on edges below the given nodes.
  ghost predicate SameShape(s: State, t: State) {
    && t == s.(edges := t.edges)
    && t.edges.Keys == s.edges.Keys
    && forall e :: e in s.edges ==>
         t.edges[e] == s.edges[e].(perm := t.edges[e].perm, shared := t.edges[e].shared)
  }

  ghost predicate ChangedBelow(s: State, t: State, list: seq<NodeId>) {
    SameShape(s, t) &&
    forall e :: e in s.edges && t.edges[e] != s.edges[e] ==>
      s.edges[e].parent.Some? && s.edges[e].parent.value in list
  }

  // The children of every node.
  function AsGraph(s: State): Graph {
    map n | n in s.nodes :: set e | e in Children(s, n) :: s.edges[e].bs.value
  }

  lemma SameShapeSameGraph(s: State, t: State)
    requires SameShape(s, t)
    ensures AsGraph(t) == AsGraph(s)
    ensures forall n :: Parents(t, n) == Parents(s, n) && Children(t, n) == Children(s, n)
  {
    forall n
      ensures Parents(t, n) == Parents(s, n) && Children(t, n) == Children(s, n)
    {
      assert forall e :: e in s.edges ==> t.edges[e].bs == s.edges[e].bs && t.edges[e].parent == s.edges[e].parent;
    }
    forall n | n in s.nodes
      ensures AsGraph(t)[n] == AsGraph(s)[n]
    {
      assert forall e :: e in Children(s, n) ==> t.edges[e].bs == s.edges[e].bs;
    }
  }

  // A node stays up to date while the edges at it stay the same.
  lemma SettledStays(h: Hooks, s: State, t: State, n: NodeId)
    requires SameShape(s, t) && Settled(h, s, n)
    requires forall e :: e in Parents(s, n) || e in Children(s, n) ==> t.edges[e] == s.edges[e]
    ensures Settled(h, t, n)
  {
    SameShapeSameGraph(s, t);
    assert CumulativePerm(t, n) == CumulativePerm(s, n);
    assert CumulativeShared(t, n) == CumulativeShared(s, n);
  }

  lemma RefreshNodeChangesBelow(h: Hooks, s: State, n: NodeId)
    ensures ChangedBelow(s, RefreshNode(h, s, n), [n])
  {
  }

  // Refreshing a node brings it up to date, if it is not its own child.
  lemma RefreshNodeSettles(h: Hooks, s: State, n: NodeId)
    requires n in s.nodes && NoConflict(s, n) && Accepts(h, s, n)
    requires forall e :: e in Parents(s, n) ==> e !in Children(s, n)
    ensures Settled(h, RefreshNode(h, s, n), n)
  {
    var t := RefreshNode(h, s, n);
    RefreshNodeChangesBelow(h, s, n);
    SameShapeSameGraph(s, t);
    assert forall e :: e in Parents(s, n) ==> t.edges[e] == s.edges[e];
    assert CumulativePerm(t, n) == CumulativePerm(s, n);
    assert CumulativeShared(t, n) == CumulativeShared(s, n);
  }

  lemma EdgeLeadsForward(s: State, list: seq<NodeId>, e: EdgeId, k: nat)
    requires Topological(AsGraph(s), list) && k < |list| && e in Children(s, list[k])
    ensures s.edges[e].bs.value in list[k + 1..]
  {
    assert s.edges[e].bs.value in AsGraph(s)[list[k]];
  }

  // In a topological list no edge leads from a later node to an earlier one.
  lemma NoEdgeBack(s: State, list: seq<NodeId>, e: EdgeId, i: nat)
    requires Topological(AsGraph(s), list) && i < |list|
    requires e in Parents(s, list[i]) && s.edges[e].parent.Some?
    ensures s.edges[e].parent.value !in list[i..]
  {
    forall k | i <= k < |list|
      ensures list[k] != s.edges[e].parent.value
    {
      if e in Children(s, list[k]) {
        EdgeLeadsForward(s, list, e, k);
      }
    }
  }

  lemma TopologicalRest(g: Graph, list: seq<nat>)
    requires Topological(g, list) && list != []
    ensures Topological(g, list[1..])
  {
  }

  // Edges at the first node of the list are not below the later ones.
  lemma FirstNodeUntouched(s: State, t: State, list: seq<NodeId>)
    requires Topological(AsGraph(s), list) && list != [] && ChangedBelow(s, t, list[1..])
    ensures forall e :: e in Parents(s, list[0]) || e in Children(s, list[0]) ==> t.edges[e] == s.edges[e]
  {
    forall e | e in Parents(s, list[0]) || e in Children(s, list[0])
      ensures t.edges[e] == s.edges[e]
    {
      if e in Parents(s, list[0]) && s.edges[e].parent.Some? {
        NoEdgeBack(s, list, e, 0);
        assert list[0..] == list;
      }
    }
  }

  lemma NotOwnChild(s: State, list: seq<NodeId>)
    requires Topological(AsGraph(s), list) && list != []
    ensures forall e :: e in Parents(s, list[0]) ==> e !in Children(s, list[0])
  {
    forall e | e in Parents(s, list[0])
      ensures e !in Children(s, list[0])
    {
      if s.edges[e].parent.Some? {
        NoEdgeBack(s, list, e, 0);
      }
    }
  }

  // The graph after all listed nodes are refreshed, whatever the checks say.
  function RefreshAll(h: Hooks, s: State, list: seq<NodeId>): State
    decreases |list|
  {
    if list == [] then s else RefreshAll(h, RefreshNode(h, s, list[0]), list[1..])
  }

  lemma {:induction false} RefreshAllChangesBelow(h: Hooks, s: State, list: seq<NodeId>)
    ensures ChangedBelow(s, RefreshAll(h, s, list), list)
    decreases |list|
  {
    if list != [] {
      RefreshNodeChangesBelow(h, s, list[0]);
      RefreshAllChangesBelow(h, RefreshNode(h, s, list[0]), list[1..]);
    }
  }

  // The node's checks see the same before and after the later nodes' refresh.
  lemma ChecksAreFinal(h: Hooks, s: State, list: seq<NodeId>)
    requires Topological(AsGraph(s), list) && list != [] && list[0] in s.nodes
    ensures var f := RefreshAll(h, s, list);
      && list[0] in f.nodes
      && (NoConflict(f, list[0]) <==> NoConflict(s, list[0]))
      && (Accepts(h, f, list[0]) <==> Accepts(h, s, list[0]))
      && CumulativePerm(f, list[0]) == CumulativePerm(s, list[0])
  {
    var n := list[0];
    var t := RefreshNode(h, s, n);
    var f := RefreshAll(h, s, list);
    RefreshNodeChangesBelow(h, s, n);
    NotOwnChild(s, list);
    SameShapeSameGraph(s, t);
    RefreshAllChangesBelow(h, t, list[1..]);
    FirstNodeUntouched(t, f, list);
    SameShapeSameGraph(t, f);
    assert forall e :: e in Parents(s, n) ==> f.edges[e] == s.edges[e];
    assert CumulativePerm(f, n) == CumulativePerm(s, n);
    assert CumulativeShared(f, n) == CumulativeShared(s, n);
  }

  // A refresh that succeeds leaves every listed node up to date.
  lemma {:induction false} RefreshSettlesAll(h: Hooks, s: State, list: seq<NodeId>)
    requires Topological(AsGraph(s), list) && forall n :: n in list ==> n in s.nodes
    requires Refresh(h, s, list).1.Refreshed?
    ensures Refresh(h, s, list).0 == RefreshAll(h, s, list)
    ensures forall n :: n in list ==> Settled(h, RefreshAll(h, s, list), n)
    decreases |list|
  {
    if list != [] {
      var n := list[0];
      var t := RefreshNode(h, s, n);
      var f := RefreshAll(h, s, list);
      RefreshNodeChangesBelow(h, s, n);
      SameShapeSameGraph(s, t);
      NotOwnChild(s, list);
      RefreshNodeSettles(h, s, n);
      TopologicalRest(AsGraph(s), list);
      RefreshSettlesAll(h, t, list[1..]);
      RefreshAllChangesBelow(h, t, list[1..]);
      FirstNodeUntouched(t, f, list);
      SettledStays(h, t, f, n);
      forall m | m in list
        ensures Settled(h, f, m)
      {
        if m != n {
          assert m in list[1..];
        }
      }
    }
  }

  // A refresh succeeds exactly if no listed node has conflicting parents or
  // rejects its permissions once all of them are refreshed.
  lemma {:induction false} RefreshSucceedsIff(h: Hooks, s: State, list: seq<NodeId>)
    requires Topological(AsGraph(s), list) && forall n :: n in list ==> n in s.nodes
    ensures RefreshAll(h, s, list).nodes == s.nodes
    ensures Refresh(h, s, list).1.Refreshed? <==>
      forall n :: n in list ==>
        NoConflict(RefreshAll(h, s, list), n) && Accepts(h, RefreshAll(h, s, list), n)
    decreases |list|
  {
    RefreshAllChangesBelow(h, s, list);
    if list != [] {
      var t := RefreshNode(h, s, list[0]);
      RefreshNodeChangesBelow(h, s, list[0]);
      SameShapeSameGraph(s, t);
      TopologicalRest(AsGraph(s), list);
      ChecksAreFinal(h, s, list);
      RefreshSucceedsIff(h, t, list[1..]);
      assert forall n :: n in list <==> n == list[0] || n in list[1..];
    }
  }

  // -------------------------------------------------------------------- loosening

  // Needed permissions shrink and shared ones grow.
  ghost predicate Looser(s: State, t: State) {
    && t.nodes == s.nodes
    && t.edges.Keys <= s.edges.Keys
    && forall e :: e in t.edges ==>
         && t.edges[e] == s.edges[e].(perm := t.edges[e].perm, shared := t.edges[e].shared)
         && t.edges[e].perm <= s.edges[e].perm
         && s.edges[e].shared <= t.edges[e].shared
  }

  ghost predicate Monotone(h: Hooks) {
    forall n, e, perm, shared, perm', shared' :: perm' <= perm && shared <= shared' ==>
      && h.childPerm(n, e, perm', shared').0 <= h.childPerm(n, e, perm, shared).0
      && h.childPerm(n, e, perm, shared).1 <= h.childPerm(n, e, perm', shared').1
  }

  lemma LooserCumulative(s: State, t: State, n: NodeId)
    requires Looser(s, t)
    ensures Parents(t, n) <= Parents(s, n) && Children(t, n) <= Children(s, n)
    ensures CumulativePerm(t, n) <= CumulativePerm(s, n)
    ensures CumulativeShared(s, n) <= CumulativeShared(t, n)
    ensures NoConflict(s, n) ==> NoConflict(t, n)
  {
  }

  lemma LooserRefreshNode(h: Hooks, s: State, t: State, n: NodeId)
    requires Looser(s, t) && Monotone(h) && n in s.nodes && (s.nodes[n].drv.Some? ==> ChildrenDerived(h, s, n))
    ensures Looser(s, RefreshNode(h, t, n))
  {
    LooserCumulative(s, t, n);
    var u := RefreshNode(h, t, n);
    forall e | e in u.edges
      ensures u.edges[e].perm <= s.edges[e].perm && s.edges[e].shared <= u.edges[e].shared
    {
      if u.edges[e] != t.edges[e] {
        assert e in Children(s, n);
        assert (s.edges[e].perm, s.edges[e].shared) == Derived(h, s, n, e);
        DerivedIsLooser(h, s, t, n, e);
      }
    }
  }

  lemma DerivedIsLooser(h: Hooks, s: State, t: State, n: NodeId, e: EdgeId)
    requires Looser(s, t) && Monotone(h) && e in t.edges
    ensures Derived(h, t, n, e).0 <= Derived(h, s, n, e).0
    ensures Derived(h, s, n, e).1 <= Derived(h, t, n, e).1
  {
  }

  // Starting from an up-to-date graph, a refresh after loosening never meets a
  // permission conflict, and keeps everything at most as tight as before.
  lemma {:induction false} LoosenedRefresh(h: Hooks, s: State, t: State, list: seq<NodeId>)
    requires Looser(s, t) && Monotone(h)
    requires forall n :: n in list ==> n in s.nodes && Settled(h, s, n)
    ensures !Refresh(h, t, list).1.Conflict?
    ensures Looser(s, Refresh(h, t, list).0) && Looser(s, RefreshAll(h, t, list))
    decreases |list|
  {
    if list != [] {
      assert Settled(h, s, list[0]);
      LooserCumulative(s, t, list[0]);
      LooserRefreshNode(h, s, t, list[0]);
      LoosenedRefresh(h, s, RefreshNode(h, t, list[0]), list[1..]);
    }
  }

  // Removing a parent edge of an up-to-date graph only loosens.  The refresh that
  // follows succeeds exactly if, with the permissions then needed, every listed
  // node has an aligned size where it must, and every driver agrees.
  lemma RemovalOnlyLoosens(h: Hooks, s: State, removed: EdgeId, list: seq<NodeId>)
    requires Monotone(h) && removed in s.edges
    requires forall n :: n in list ==> n in s.nodes && Settled(h, s, n)
    requires Topological(AsGraph(s.(edges := s.edges - {removed})), list)
    ensures var t := s.(edges := s.edges - {removed});
      var f := RefreshAll(h, t, list);
      && Looser(s, f)
      && !Refresh(h, t, list).1.Conflict?
      && (forall n :: n in list ==> NoConflict(f, n))
      && (Refresh(h, t, list).1.Refreshed? <==>
            forall n :: n in list ==>
              && AlignedEnough(s.nodes[n], CumulativePerm(f, n))
              && (s.nodes[n].drv.Some? ==> h.checkPerm(n, CumulativePerm(f, n), CumulativeShared(f, n))))
  {
    var t := s.(edges := s.edges - {removed});
    var f := RefreshAll(h, t, list);
    assert Looser(s, t);
    LoosenedRefresh(h, s, t, list);
    RefreshSucceedsIff(h, t, list);
    forall n | n in list
      ensures NoConflict(f, n) && WritableEnough(s.nodes[n], CumulativePerm(f, n))
    {
      assert Settled(h, s, n);
      LooserCumulative(s, f, n);
    }
  }

  // Seen before the call: it is enough that no listed node of unaligned size is
  // written, and that drivers refuse nothing.
  lemma RemovalSucceeds(h: Hooks, s: State, removed: EdgeId, list: seq<NodeId>)
    requires Monotone(h) && removed in s.edges
    requires forall n :: n in list ==> n in s.nodes && Settled(h, s, n)
    requires Topological(AsGraph(s.(edges := s.edges - {removed})), list)
    requires forall n :: n in list ==> s.nodes[n].sizeAligned || !Writes(CumulativePerm(s, n))
    requires forall n, perm, shared :: n in list ==> h.checkPerm(n, perm, shared)
    ensures Refresh(h, s.(edges := s.edges - {removed}), list).1.Refreshed?
  {
    RemovalOnlyLoosens(h, s, removed, list);
    var f := RefreshAll(h, s.(edges := s.edges - {removed}), list);
    forall n | n in list
      ensures AlignedEnough(s.nodes[n], CumulativePerm(f, n))
    {
      LooserCumulative(s, f, n);
    }
  }

  // The default permission functions, as driver callbacks.
  function DefaultHooks(nodes: map<NodeId, Node>, roles: map<EdgeId, Role>): Hooks {
    Hooks((n, e, perm, shared) =>
            if n in nodes && e in roles && DefaultRole(roles[e])
            then DefaultPerms(nodes[n], roles[e], perm, shared) else ({}, ALL),
          (n, perm, shared) => true)
  }

  lemma DefaultHooksMonotone(nodes: map<NodeId, Node>, roles: map<EdgeId, Role>)
    ensures Monotone(DefaultHooks(nodes, roles))
  {
    var h := DefaultHooks(nodes, roles);
    forall n, e, perm, shared, perm', shared' | perm' <= perm && shared <= shared'
      ensures h.childPerm(n, e, perm', shared').0 <= h.childPerm(n, e, perm, shared).0
      ensures h.childPerm(n, e, perm, shared).1 <= h.childPerm(n, e, perm', shared').1
    {
      if n in nodes && e in roles && DefaultRole(roles[e]) {
        DefaultPermsMonotone(nodes[n], roles[e], perm, shared, perm', shared');
      }
    }
  }

  // It can fail: an image of unaligned size is written by one parent and resized
  // by another.  Without the second parent, the first may no longer write.
  lemma RemovalMayBeRejected()
    ensures
      var node := Node(Some(Driver(false, false, false)), true, false, false, false, false, false, false);
      var role := Role(false, false, false, false, false);
      var writer := Edge(None, Some(0), role, {Write}, ALL, false, false);
      var resizer := Edge(None, Some(0), role, {Resize}, ALL, false, false);
      var h := DefaultHooks(map[0 := node], map[]);
      var s := State(map[0 := node], map[1 := writer, 2 := resizer], map[], map[], map[0 := 2]);
      && Settled(h, s, 0)
      && Refresh(h, s.(edges := s.edges - {2}), [0]).1 == Rejected(0)
  {
    var node := Node(Some(Driver(false, false, false)), true, false, false, false, false, false, false);
    var role := Role(false, false, false, false, false);
    var writer := Edge(None, Some(0), role, {Write}, ALL, false, false);
    var resizer := Edge(None, Some(0), role, {Resize}, ALL, false, false);
    var s := State(map[0 := node], map[1 := writer, 2 := resizer], map[], map[], map[0 := 2]);
    var t := s.(edges := s.edges - {2});
    assert Parents(s, 0) == {1, 2} && Parents(t, 0) == {1};
    assert Children(s, 0) == {};
    assert Resize in CumulativePerm(s, 0) by {
      assert 2 in Parents(s, 0) && Resize in s.edges[2].perm;
    }
    assert Write in CumulativePerm(t, 0) by {
      assert 1 in Parents(t, 0) && Write in t.edges[1].perm;
    }
    assert Resize !in CumulativePerm(t, 0);
  }
}
