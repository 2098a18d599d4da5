/**
 Attaching children, setting a backing or file child, appending and replacing
 nodes, each with the permission refresh and the end of its transaction
 (xemu/block.c:3211-3242, 3400-3425, 3458-3616, 5411-5447, 5487-5523).
 */
module BackingChange {

  import opened Wrappers
  import opened BlockGraph
  import opened GraphTransaction
  import opened Reachability
  import opened TopologicalOrder
  import opened Permissions
  import opened PermissionRefresh
  import opened NodeReplacement

  // --------------------------------------------------------------------- attaching

  // The edge that bdrv_attach_child_noperm creates.
  function NewEdge(h: Hooks, s: State, e: EdgeId, parent: NodeId, bs: NodeId, role: Role): Edge {
    var (perm, shared) := h.childPerm(parent, e, CumulativePerm(s, parent), CumulativeShared(s, parent));
    Edge(Some(parent), Some(bs), role, perm, if bs in s.nodes && s.nodes[bs].forceShare then ALL else shared, false, false)
  }

  predicate IsInactive(s: State, n: NodeId) {
    n in s.nodes && s.nodes[n].inactive
  }

  // No cycle, no inactive child of an active parent, and no more than reading of an
  // inactive child.
  ghost predicate MayBecomeChild(h: Hooks, s: State, e: EdgeId, parent: NodeId, bs: NodeId, role: Role) {
    && !Reaches(AsGraph(s), bs, parent)
    && (IsInactive(s, bs) ==> IsInactive(s, parent))
    && MayAttach(s, NewEdge(h, s, e, parent, bs, role))
  }

  // Attaching an edge from a node that the new child does not reach.
  lemma AttachRedirects(s: State, t: State, e: EdgeId, edge: Edge)
    requires WellFormed(s) && e !in s.edges && edge.parent.Some? && edge.bs.Some? && edge.bs.value in s.nodes
    requires t.nodes == s.nodes && t.edges == s.edges[e := edge]
    requires !Reaches(AsGraph(s), edge.bs.value, edge.parent.value)
    ensures Redirects(AsGraph(s), AsGraph(t), edge.bs.value)
  {
    forall n | n in s.nodes
      ensures AsGraph(t)[n] == AsGraph(s)[n] + if edge.parent.value == n then {edge.bs.value} else {}
    {
      AttachedSuccessors(s, t, e, edge, n);
    }
  }

  lemma AttachedSuccessors(s: State, t: State, e: EdgeId, edge: Edge, n: NodeId)
    requires e !in s.edges && edge.parent.Some? && edge.bs.Some? && n in s.nodes
    requires t.nodes == s.nodes && t.edges == s.edges[e := edge]
    ensures AsGraph(t)[n] == AsGraph(s)[n] + if edge.parent.value == n then {edge.bs.value} else {}
  {
    assert Children(t, n) == Children(s, n) + if edge.parent.value == n then {e} else {};
    forall x | x in AsGraph(s)[n]
      ensures x in AsGraph(t)[n]
    {
      var f :| f in Children(s, n) && s.edges[f].bs.value == x;
      assert f in Children(t, n);
    }
    assert edge.parent.value == n ==> e in Children(t, n) && t.edges[e].bs.value in AsGraph(t)[n];
  }

  lemma AttachEffect(s: State, e: EdgeId, edge: Edge)
    requires WellFormed(s) && Allowed(s, AttachOp(e, edge))
    ensures var t := Perform(s, AttachOp(e, edge));
      && t.nodes == s.nodes && t.edges == s.edges[e := edge] && t.inheritsFrom == s.inheritsFrom
      && t.links == NewLinks(s.links, edge.parent, EdgeSlot(s.nodes, edge.parent, edge.role), e, true)
  {
    EmptyEdgeKeepsWellFormed(s, e, edge);
    ReplaceNopermIs(s.(edges := s.edges[e := edge.(bs := None)]), e, edge.bs);
  }

  // bdrv_attach_child_noperm.
  method AttachChildNoperm(tran: Transaction, h: Hooks, e: EdgeId, parent: NodeId, bs: NodeId, role: Role, joined: bool)
    returns (ok: bool)
    requires tran.Valid() && Acyclic(AsGraph(tran.graph))
    requires Allowed(tran.graph, AttachOp(e, NewEdge(h, tran.graph, e, parent, bs, role)))
    modifies tran
    ensures tran.Valid() && Acyclic(AsGraph(tran.graph))
    ensures ok <==> MayBecomeChild(h, old(tran.graph), e, parent, bs, role) && joined
    ensures var edge := NewEdge(h, old(tran.graph), e, parent, bs, role);
      tran.graph == if ok then Perform(old(tran.graph), AttachOp(e, edge)) else old(tran.graph)
  {
    WellFormedIsClosed(tran.graph);
    var cycle := RecurseHasChild(AsGraph(tran.graph), bs, parent);
    if cycle {
      return false;
    }
    if tran.graph.nodes[bs].inactive && !tran.graph.nodes[parent].inactive {
      return false;
    }
    var perm, shared := GetCumulativePerm(tran.graph, parent);
    var (childPerm, childShared) := h.childPerm(parent, e, perm, shared);
    var edge := Edge(Some(parent), Some(bs), role, childPerm,
                     if tran.graph.nodes[bs].forceShare then ALL else childShared, false, false);
    ghost var s := tran.graph;
    ok := tran.AttachChildCommon(e, edge, joined);
    if ok {
      AttachEffect(s, e, edge);
      AttachRedirects(s, tran.graph, e, edge);
      RedirectKeepsAcyclic(AsGraph(s), AsGraph(tran.graph), bs);
    }
  }

  // ---------------------------------------------------------------- inherits_from

  // The last of root's links to node n, apart from e, is gone.
  predicate LosesLink(s: State, root: NodeId, e: EdgeId, n: NodeId) {
    && n in s.inheritsFrom && s.inheritsFrom[n] == root
    && forall c :: c in Children(s, root) && c != e ==> s.edges[c].bs != Some(n)
  }

  // The nodes below e that stop inheriting from root when e goes away.
  ghost function Cleared(s: State, root: NodeId, e: EdgeId): set<NodeId>
    requires e in s.edges && s.edges[e].bs.Some?
  {
    set n | n in ReachSet(AsGraph(s), s.edges[e].bs.value) && LosesLink(s, root, e, n)
  }

  // They are exactly those that inherit from root and that no other child of root is.
  lemma ClearedMeaning(s: State, root: NodeId, e: EdgeId, n: NodeId)
    requires e in s.edges && s.edges[e].bs.Some?
    ensures n in Cleared(s, root, e) <==>
      && Reaches(AsGraph(s), s.edges[e].bs.value, n) && n in AsGraph(s).Keys + {s.edges[e].bs.value}
      && InheritsFrom(s, n) == Some(root)
      && !exists c :: c in s.edges && c != e && s.edges[c].parent == Some(root) && s.edges[c].bs == Some(n)
  {
  }

  // Edge e leads strictly below root.
  ghost predicate Below(s: State, root: NodeId, e: EdgeId) {
    && e in s.edges && s.edges[e].bs.Some? && s.edges[e].parent.Some? && s.edges[e].bs.value in s.nodes
    && Reaches(AsGraph(s), root, s.edges[e].parent.value)
  }

  lemma EdgeInGraph(s: State, e: EdgeId)
    requires WellFormed(s) && e in s.edges && s.edges[e].bs.Some? && s.edges[e].parent.Some?
    ensures s.edges[e].parent.value in s.nodes && s.edges[e].bs.value in AsGraph(s)[s.edges[e].parent.value]
  {
    assert e in Children(s, s.edges[e].parent.value);
  }

  lemma ChildIsBelow(s: State, root: NodeId, e: EdgeId, c: EdgeId)
    requires WellFormed(s) && Acyclic(AsGraph(s)) && Below(s, root, e) && c in Children(s, s.edges[e].bs.value)
    ensures Below(s, root, c) && s.edges[c].bs.value in AsGraph(s)[s.edges[e].bs.value]
    ensures s.edges[e].bs.value != root
    ensures !Reaches(AsGraph(s), s.edges[c].bs.value, s.edges[e].bs.value)
  {
    var g := AsGraph(s);
    EdgeInGraph(s, e);
    EdgeInGraph(s, c);
    ReachesThenEdge(g, root, s.edges[e].parent.value, s.edges[e].bs.value);
    assert !Reaches(g, s.edges[e].bs.value, s.edges[e].parent.value);
  }

  lemma ClearedSplits(s: State, root: NodeId, e: EdgeId, n: NodeId)
    requires WellFormed(s) && Acyclic(AsGraph(s)) && Below(s, root, e)
    ensures n in Cleared(s, root, e) <==>
      || (n == s.edges[e].bs.value && LosesLink(s, root, e, n))
      || exists c :: c in Children(s, s.edges[e].bs.value) && n in Cleared(s, root, c)
  {
    var g := AsGraph(s);
    var b := s.edges[e].bs.value;
    ReachesSelf(g, b);
    if n in Cleared(s, root, e) && n != b {
      FirstEdge(g, b, n);
      var x :| x in g[b] && Reaches(g, x, n);
      var c :| c in Children(s, b) && s.edges[c].bs.value == x;
      ChildIsBelow(s, root, e, c);
      assert n in Cleared(s, root, c);
    }
    forall c | c in Children(s, b) && n in Cleared(s, root, c)
      ensures n in Cleared(s, root, e)
    {
      ChildIsBelow(s, root, e, c);
      ReachesByEdge(g, b, s.edges[c].bs.value, n);
    }
  }

  function WithoutInherits(s: State, nodes: set<NodeId>): State {
    s.(inheritsFrom := s.inheritsFrom - nodes)
  }

  lemma ClearedAfter(s: State, gone: set<NodeId>, root: NodeId, c: EdgeId)
    requires Below(s, root, c)
    ensures var t := WithoutInherits(s, gone);
      && AsGraph(t) == AsGraph(s) && Below(t, root, c)
      && WithoutInherits(t, Cleared(t, root, c)) == WithoutInherits(s, gone + Cleared(s, root, c))
  {
    var t := WithoutInherits(s, gone);
    assert forall n :: Children(t, n) == Children(s, n);
    assert AsGraph(t) == AsGraph(s);
    assert Cleared(t, root, c) == Cleared(s, root, c) - gone;
  }

  // The nodes cleared once some children of the node below e have been visited.
  ghost predicate ClearedSoFar(s: State, root: NodeId, e: EdgeId, rest: set<EdgeId>, gone: set<NodeId>)
    requires e in s.edges && s.edges[e].bs.Some?
  {
    var b := s.edges[e].bs.value;
    forall n :: n in gone <==>
      || (n == b && LosesLink(s, root, e, n))
      || exists c :: c in Children(s, b) - rest && n in Cleared(s, root, c)
  }

  lemma ClearedOneMore(s: State, root: NodeId, e: EdgeId, rest: set<EdgeId>, gone: set<NodeId>, c: EdgeId)
    requires e in s.edges && s.edges[e].bs.Some? && c in rest && rest <= Children(s, s.edges[e].bs.value)
    requires ClearedSoFar(s, root, e, rest, gone)
    ensures ClearedSoFar(s, root, e, rest - {c}, gone + Cleared(s, root, c))
  {
    var b := s.edges[e].bs.value;
    assert Children(s, b) - (rest - {c}) == (Children(s, b) - rest) + {c};
  }

  lemma ClearedAll(s: State, root: NodeId, e: EdgeId, gone: set<NodeId>)
    requires WellFormed(s) && Acyclic(AsGraph(s)) && Below(s, root, e) && ClearedSoFar(s, root, e, {}, gone)
    ensures gone == Cleared(s, root, e)
  {
    assert Children(s, s.edges[e].bs.value) - {} == Children(s, s.edges[e].bs.value);
    forall n
      ensures n in gone <==> n in Cleared(s, root, e)
    {
      ClearedSplits(s, root, e, n);
    }
  }

  // bdrv_unset_inherits_from.
  method UnsetInheritsFrom(tran: Transaction, root: NodeId, e: EdgeId)
    requires tran.Valid() && Acyclic(AsGraph(tran.graph)) && Below(tran.graph, root, e)
    modifies tran
    ensures tran.Valid() && tran.graph == WithoutInherits(old(tran.graph), Cleared(old(tran.graph), root, e))
    decreases ReachSet(AsGraph(tran.graph), tran.graph.edges[e].bs.value)
  {
    ghost var s := tran.graph;
    var b := tran.graph.edges[e].bs.value;
    ghost var gone: set<NodeId> := {};
    if LosesLink(tran.graph, root, e, b) {
      tran.SetInheritsFromTran(b, None);
      gone := {b};
    }
    var rest := Children(tran.graph, b);
    assert tran.graph == WithoutInherits(s, gone) && rest == Children(s, b);
    WellFormedIsClosed(s);
    while rest != {}
      invariant tran.Valid() && rest <= Children(s, b)
      invariant tran.graph == WithoutInherits(s, gone) && ClearedSoFar(s, root, e, rest, gone)
    {
      var c :| c in rest;
      ChildIsBelow(s, root, e, c);
      ClearedAfter(s, gone, root, c);
      ClearedOneMore(s, root, e, rest, gone, c);
      ChildReachesLess(AsGraph(s), b, s.edges[c].bs.value);
      UnsetInheritsFrom(tran, root, c);
      gone := gone + Cleared(s, root, c);
      rest := rest - {c};
    }
    ClearedAll(s, root, e, gone);
  }

  // Whom each node inherits its options from.
  function InheritGraph(s: State): Graph {
    map n | n in s.nodes :: if n in s.inheritsFrom then {s.inheritsFrom[n]} else {}
  }

  // bdrv_inherits_from_recursive; chains of inherits_from end.
  method InheritsFromRecursive(s: State, child: Option<NodeId>, parent: NodeId) returns (r: bool)
    requires Closed(InheritGraph(s)) && Acyclic(InheritGraph(s)) && (child.Some? ==> child.value in s.nodes)
    ensures r <==> child.Some? && Reaches(InheritGraph(s), child.value, parent)
  {
    var g := InheritGraph(s);
    var n := child;
    while n.Some? && n.value != parent
      invariant n.Some? ==> n.value in s.nodes
      invariant child.Some? && Reaches(g, child.value, parent) <==> n.Some? && Reaches(g, n.value, parent)
      decreases if n.Some? then ReachSet(g, n.value) else {}, n.Some?
    {
      var x := n.value;
      if x in s.inheritsFrom {
        n := Some(s.inheritsFrom[x]);
        ChildReachesLess(g, x, n.value);
        if Reaches(g, x, parent) {
          FirstEdge(g, x, parent);
        } else if Reaches(g, n.value, parent) {
          ReachesByEdge(g, x, n.value, parent);
        }
      } else {
        n := None;
        if Reaches(g, x, parent) {
          FirstEdge(g, x, parent);
        }
      }
    }
    if n.Some? {
      ReachesSelf(g, n.value);
    }
    r := n.Some?;
  }

  // ------------------------------------------------- setting a backing or file child

  datatype SetResult = Changed | Corrupted | FrozenChild | Unsupported | NoFileChild | AttachRefused

  function SlotFor(isBacking: bool): Slot {
    if isBacking then BackingSlot else FileSlot
  }

  predicate IsFilter(s: State, n: NodeId) {
    n in s.nodes && s.nodes[n].drv.Some? && s.nodes[n].drv.value.isFilter
  }

  // The first check that the parent fails, if any.
  function Obstacle(s: State, parent: NodeId, isBacking: bool): Option<SetResult>
    requires parent in s.nodes
  {
    var cur := Link(s, parent, SlotFor(isBacking));
    if s.nodes[parent].drv.None? then Some(Corrupted)
    else if cur.Some? && cur.value in s.edges && s.edges[cur.value].frozen then Some(FrozenChild)
    else if isBacking && !IsFilter(s, parent) && !s.nodes[parent].drv.value.supportsBacking then Some(Unsupported)
    else if !isBacking && !IsFilter(s, parent) && cur.None? then Some(NoFileChild)
    else None
  }

  // The role of the new child; that of a file child is taken over.
  function ChildRole(s: State, parent: NodeId, isBacking: bool): Role {
    var cur := Link(s, parent, FileSlot);
    if IsFilter(s, parent) then Role(false, false, true, false, true)
    else if isBacking || cur.None? || cur.value !in s.edges then Role(false, false, false, true, false)
    else s.edges[cur.value].role
  }

  // Which check a parent fails, in the order of the code.
  lemma ObstacleMeaning(s: State, parent: NodeId, isBacking: bool)
    requires WellFormed(s) && parent in s.nodes
    ensures var o := Obstacle(s, parent, isBacking); var drv := s.nodes[parent].drv; var cur := Link(s, parent, SlotFor(isBacking));
      var frozen := cur.Some? && cur.value in s.edges && s.edges[cur.value].frozen;
      && (o == Some(Corrupted) <==> drv.None?)
      && (o == Some(FrozenChild) <==> drv.Some? && frozen)
      && (o == Some(Unsupported) <==> drv.Some? && !frozen && isBacking && !drv.value.isFilter && !drv.value.supportsBacking)
      && (o == Some(NoFileChild) <==> drv.Some? && !frozen && !isBacking && !drv.value.isFilter && cur.None?)
      && (o.Some? ==> o.value.Corrupted? || o.value.FrozenChild? || o.value.Unsupported? || o.value.NoFileChild?)
  {
  }

  // The child of a filter is its filtered one, a backing file is a COW child, and a
  // file child keeps the role of the one it replaces.
  lemma ChildRoleMeaning(s: State, parent: NodeId, isBacking: bool)
    requires WellFormed(s) && parent in s.nodes && Obstacle(s, parent, isBacking).None?
    ensures var role := ChildRole(s, parent, isBacking);
      if IsFilter(s, parent) then role == Role(false, false, true, false, true)
      else if isBacking then role == Role(false, false, false, true, false)
      else exists f :: f in Children(s, parent) && Link(s, parent, FileSlot) == Some(f) && role == s.edges[f].role
  {
    if !IsFilter(s, parent) && !isBacking {
      LinkedEdge(s, parent, FileSlot);
    }
  }

  lemma LinkedEdge(s: State, n: NodeId, slot: Slot)
    requires WellFormed(s) && Link(s, n, slot).Some?
    ensures var e := Link(s, n, slot).value;
      && slot != NoSlot && TakesSlot(s, e, n, slot) && s.edges[e].bs.value in s.nodes
      && n in s.nodes && s.nodes[n].drv.Some?
  {
    var e := Link(s, n, slot).value;
    assert LinksTo(s, n, slot, e) <==> slot != NoSlot && TakesSlot(s, e, n, slot);
  }

  // The graph after the current child has been let go.
  ghost function Dropped(s: State, parent: NodeId, cur: Option<EdgeId>): State {
    if cur.None? || cur.value !in s.edges || s.edges[cur.value].bs.None? || s.edges[cur.value].frozen then s
    else Perform(WithoutInherits(s, Cleared(s, parent, cur.value)), RemoveOp(cur.value))
  }

  lemma WithoutInheritsKeepsWellFormed(s: State, gone: set<NodeId>)
    requires WellFormed(s)
    ensures WellFormed(WithoutInherits(s, gone))
  {
    var t := WithoutInherits(s, gone);
    forall n: NodeId, slot: Slot, f: EdgeId
      ensures LinksTo(t, n, slot, f) <==> slot != NoSlot && TakesSlot(t, f, n, slot)
    {
      assert LinksTo(s, n, slot, f) <==> slot != NoSlot && TakesSlot(s, f, n, slot);
    }
  }

  lemma DroppedEffect(s: State, parent: NodeId, slot: Slot, cur: Option<EdgeId>)
    requires WellFormed(s) && cur == Link(s, parent, slot)
    requires cur.Some? ==> cur.value in s.edges && s.edges[cur.value].bs.Some? && !s.edges[cur.value].frozen
    ensures var t := Dropped(s, parent, cur);
      && t.nodes == s.nodes && t.edges.Keys == s.edges.Keys
      && (forall f :: f in s.edges && Some(f) != cur ==> t.edges[f] == s.edges[f])
      && (cur.Some? ==> t.edges[cur.value] == s.edges[cur.value].(bs := None))
      && t.links == s.links - {(parent, slot)}
      && t.inheritsFrom == if cur.Some? then s.inheritsFrom - Cleared(s, parent, cur.value) else s.inheritsFrom
  {
    if cur.Some? {
      LinkedEdge(s, parent, slot);
      var w := WithoutInherits(s, Cleared(s, parent, cur.value));
      WithoutInheritsKeepsWellFormed(s, Cleared(s, parent, cur.value));
      ReplaceNopermIs(w, cur.value, None);
    }
  }

  // A graph with fewer edges has no more cycles.
  lemma SubgraphIsAcyclic(g: Graph, g': Graph)
    requires Acyclic(g) && g'.Keys == g.Keys && forall n :: n in g ==> g'[n] <= g[n]
    ensures Acyclic(g')
  {
    forall a, b | a in g' && b in g'[a]
      ensures !Reaches(g', b, a)
    {
      forall p | PathFromTo(g', p, b, a)
        ensures PathFromTo(g, p, b, a)
      {
      }
    }
  }

  lemma DroppedIsAcyclic(s: State, t: State, cur: EdgeId)
    requires Acyclic(AsGraph(s)) && t.nodes == s.nodes && t.edges.Keys == s.edges.Keys && cur in s.edges
    requires forall f :: f in s.edges && f != cur ==> t.edges[f] == s.edges[f]
    requires t.edges[cur].bs.None?
    ensures Acyclic(AsGraph(t))
  {
    forall n | n in s.nodes
      ensures AsGraph(t)[n] <= AsGraph(s)[n]
    {
      assert Children(t, n) <= Children(s, n);
    }
    SubgraphIsAcyclic(AsGraph(s), AsGraph(t));
  }

  // Let go of the current child, if there is one.
  method DropChild(tran: Transaction, parent: NodeId, slot: Slot, cur: Option<EdgeId>)
    requires tran.Valid() && Acyclic(AsGraph(tran.graph)) && cur == Link(tran.graph, parent, slot)
    requires cur.Some? ==> cur.value in tran.graph.edges && tran.graph.edges[cur.value].bs.Some?
    requires cur.Some? ==> !tran.graph.edges[cur.value].frozen
    modifies tran
    ensures tran.Valid() && Acyclic(AsGraph(tran.graph)) && tran.graph == Dropped(old(tran.graph), parent, cur)
  {
    ghost var s := tran.graph;
    DroppedEffect(s, parent, slot, cur);
    if cur.Some? {
      LinkedEdge(s, parent, slot);
      ReachesSelf(AsGraph(s), parent);
      UnsetInheritsFrom(tran, parent, cur.value);
      tran.RemoveChildTran(cur.value);
      DroppedIsAcyclic(s, tran.graph, cur.value);
    }
  }

  // The new child fits the link that has become free.
  lemma MayAttachNew(h: Hooks, s: State, t: State, e: EdgeId, parent: NodeId, bs: NodeId, isBacking: bool)
    requires WellFormed(s) && parent in s.nodes && Obstacle(s, parent, isBacking).None? && bs in s.nodes && e !in s.edges
    requires IsFilter(s, parent) ==> s.nodes[parent].drv.value.filteredChildIsBacking == isBacking
    requires t.nodes == s.nodes && t.edges.Keys == s.edges.Keys && t.links == s.links - {(parent, SlotFor(isBacking))}
    ensures Allowed(t, AttachOp(e, NewEdge(h, t, e, parent, bs, ChildRole(s, parent, isBacking))))
    ensures EdgeSlot(s.nodes, Some(parent), ChildRole(s, parent, isBacking)) == SlotFor(isBacking)
  {
    if !IsFilter(s, parent) && !isBacking {
      LinkedEdge(s, parent, FileSlot);
    }
  }

  // What a successful change leaves: the link of the parent, all other edges.
  ghost predicate HasChild(s: State, t: State, parent: NodeId, child: Option<NodeId>, slot: Slot, e: EdgeId) {
    && t.nodes == s.nodes
    && (forall f :: f in s.edges && Some(f) != Link(s, parent, slot) ==> f in t.edges && t.edges[f] == s.edges[f])
    && Link(t, parent, slot) == (if child.Some? then Some(e) else None)
    && (child.Some? ==> e in t.edges && t.edges[e].bs == child && t.edges[e].parent == Some(parent))
    && (child.Some? ==> t.edges[e].role == ChildRole(s, parent, slot == BackingSlot))
    && (forall n :: InheritsFrom(t, n) == NewInherits(s, parent, child, Link(s, parent, slot), n))
  }

  function InheritsFrom(s: State, n: NodeId): Option<NodeId> {
    if n in s.inheritsFrom then Some(s.inheritsFrom[n]) else None
  }

  // Whom n inherits from when the child cur of parent has been replaced: a new child
  // that has inherited from the parent, if only indirectly, does so directly; nodes
  // that lose their last link to the parent stop; and nothing else changes.
  ghost function NewInherits(s: State, parent: NodeId, child: Option<NodeId>, cur: Option<EdgeId>, n: NodeId): Option<NodeId> {
    if child == Some(n) && Reaches(InheritGraph(s), n, parent) then Some(parent)
    else if cur.Some? && cur.value in s.edges && s.edges[cur.value].bs.Some? && n in Cleared(s, parent, cur.value) then None
    else InheritsFrom(s, n)
  }

  // The graph without the child that is to be replaced.
  ghost function Remaining(s: State, parent: NodeId, isBacking: bool): State {
    Dropped(s, parent, Link(s, parent, SlotFor(isBacking)))
  }

  // A parent without an obstacle, and an edge for its new child.
  ghost predicate MaySetChild(s: State, parent: NodeId, isBacking: bool, e: EdgeId) {
    && WellFormed(s) && parent in s.nodes && e !in s.edges && Obstacle(s, parent, isBacking).None?
    && (IsFilter(s, parent) ==> s.nodes[parent].drv.value.filteredChildIsBacking == isBacking)
  }

  lemma RemainingEffect(s: State, parent: NodeId, isBacking: bool, e: EdgeId)
    requires MaySetChild(s, parent, isBacking, e)
    ensures var cur := Link(s, parent, SlotFor(isBacking)); var t := Remaining(s, parent, isBacking);
      && (cur.Some? ==> cur.value in s.edges && s.edges[cur.value].bs.Some? && !s.edges[cur.value].frozen)
      && t.nodes == s.nodes && t.edges.Keys == s.edges.Keys
      && (forall f :: f in s.edges && Some(f) != cur ==> t.edges[f] == s.edges[f])
      && t.links == s.links - {(parent, SlotFor(isBacking))}
      && t.inheritsFrom == if cur.Some? then s.inheritsFrom - Cleared(s, parent, cur.value) else s.inheritsFrom
    ensures HasChild(s, Remaining(s, parent, isBacking), parent, None, SlotFor(isBacking), e)
  {
    var cur := Link(s, parent, SlotFor(isBacking));
    if cur.Some? {
      LinkedEdge(s, parent, SlotFor(isBacking));
    }
    DroppedEffect(s, parent, SlotFor(isBacking), cur);
  }

  lemma TakenEffect(h: Hooks, s: State, parent: NodeId, bs: NodeId, isBacking: bool, e: EdgeId)
    requires MaySetChild(s, parent, isBacking, e) && bs in s.nodes && WellFormed(Remaining(s, parent, isBacking))
    ensures var d := Remaining(s, parent, isBacking); var edge := NewEdge(h, d, e, parent, bs, ChildRole(s, parent, isBacking));
      && d.nodes == s.nodes && Allowed(d, AttachOp(e, edge))
      && var t := Perform(d, AttachOp(e, edge));
         && t.nodes == s.nodes && (!Reaches(InheritGraph(s), bs, parent) ==> HasChild(s, t, parent, Some(bs), SlotFor(isBacking), e))
         && (Reaches(InheritGraph(s), bs, parent) ==>
               HasChild(s, WithInherits(t, bs, Some(parent)), parent, Some(bs), SlotFor(isBacking), e))
  {
    var d := Remaining(s, parent, isBacking);
    RemainingEffect(s, parent, isBacking, e);
    MayAttachNew(h, s, d, e, parent, bs, isBacking);
    var edge := NewEdge(h, d, e, parent, bs, ChildRole(s, parent, isBacking));
    AttachEffect(d, e, edge);
    TakenHasChild(s, d, Perform(d, AttachOp(e, edge)), parent, bs, SlotFor(isBacking), e, edge);
  }

  lemma TakenHasChild(s: State, d: State, t: State, parent: NodeId, bs: NodeId, slot: Slot, e: EdgeId, edge: Edge)
    requires d.nodes == s.nodes && d.edges.Keys == s.edges.Keys && e !in s.edges && slot != NoSlot
    requires forall f :: f in s.edges && Some(f) != Link(s, parent, slot) ==> d.edges[f] == s.edges[f]
    requires edge.parent == Some(parent) && edge.bs == Some(bs) && edge.role == ChildRole(s, parent, slot == BackingSlot)
    requires var cur := Link(s, parent, slot);
      && (cur.Some? ==> cur.value in s.edges && s.edges[cur.value].bs.Some?)
      && d.inheritsFrom == if cur.Some? then s.inheritsFrom - Cleared(s, parent, cur.value) else s.inheritsFrom
    requires t.inheritsFrom == d.inheritsFrom
    requires t.nodes == d.nodes && t.edges == d.edges[e := edge] && t.links == NewLinks(d.links, Some(parent), slot, e, true)
    ensures !Reaches(InheritGraph(s), bs, parent) ==> HasChild(s, t, parent, Some(bs), slot, e)
    ensures Reaches(InheritGraph(s), bs, parent) ==> HasChild(s, WithInherits(t, bs, Some(parent)), parent, Some(bs), slot, e)
  {
  }

  // Attach the new child to the link that has become free.
  method TakeChild(tran: Transaction, h: Hooks, parent: NodeId, bs: NodeId, isBacking: bool, role: Role,
                   e: EdgeId, joined: bool, update: bool, ghost s: State)
    returns (ok: bool)
    requires tran.Valid() && Acyclic(AsGraph(tran.graph)) && MaySetChild(s, parent, isBacking, e) && bs in s.nodes
    requires role == ChildRole(s, parent, isBacking) && tran.graph == Remaining(s, parent, isBacking)
    requires update <==> Reaches(InheritGraph(s), bs, parent)
    modifies tran
    ensures tran.Valid() && Acyclic(AsGraph(tran.graph)) && tran.graph.nodes == s.nodes
    ensures ok <==> MayBecomeChild(h, old(tran.graph), e, parent, bs, role) && joined
    ensures ok ==> HasChild(s, tran.graph, parent, Some(bs), SlotFor(isBacking), e)
  {
    TakenEffect(h, s, parent, bs, isBacking, e);
    ok := AttachChildNoperm(tran, h, e, parent, bs, role, joined);
    if ok && update {
      GraphIgnoresInherits(tran.graph, bs, parent);
      tran.SetInheritsFromTran(bs, Some(parent));
    }
  }

  lemma GraphIgnoresInherits(s: State, n: NodeId, from: NodeId)
    ensures AsGraph(WithInherits(s, n, Some(from))) == AsGraph(s)
  {
    assert forall m :: Children(WithInherits(s, n, Some(from)), m) == Children(s, m);
  }

  // bdrv_set_file_or_backing_noperm.
  method SetFileOrBackingNoperm(tran: Transaction, h: Hooks, parent: NodeId, child: Option<NodeId>, isBacking: bool,
                                e: EdgeId, joined: bool)
    returns (r: SetResult)
    requires tran.Valid() && Acyclic(AsGraph(tran.graph)) && parent in tran.graph.nodes && e !in tran.graph.edges
    requires child.Some? ==> child.value in tran.graph.nodes
    requires Closed(InheritGraph(tran.graph)) && Acyclic(InheritGraph(tran.graph))
    requires IsFilter(tran.graph, parent) ==> tran.graph.nodes[parent].drv.value.filteredChildIsBacking == isBacking
    modifies tran
    ensures tran.Valid() && Acyclic(AsGraph(tran.graph)) && tran.graph.nodes == old(tran.graph).nodes
    ensures r == Verdict(old(tran.graph), h, parent, child, isBacking, e, joined)
    ensures r.Changed? ==> HasChild(old(tran.graph), tran.graph, parent, child, SlotFor(isBacking), e)
  {
    ghost var s := tran.graph;
    var slot := SlotFor(isBacking);
    var cur := Link(tran.graph, parent, slot);
    var role := ChildRole(tran.graph, parent, isBacking);
    var update := InheritsFromRecursive(tran.graph, child, parent);
    var obstacle := Obstacle(tran.graph, parent, isBacking);
    if obstacle.Some? {
      return obstacle.value;
    }
    RemainingEffect(s, parent, isBacking, e);
    DropChild(tran, parent, slot, cur);
    if child.None? {
      return Changed;
    }
    var ok := TakeChild(tran, h, parent, child.value, isBacking, role, e, joined, update, s);
    return if ok then Changed else AttachRefused;
  }

  // The result: the first check that fails, or whether the new child is accepted.
  ghost function Verdict(s: State, h: Hooks, parent: NodeId, child: Option<NodeId>, isBacking: bool, e: EdgeId, joined: bool): SetResult
    requires parent in s.nodes
  {
    if Obstacle(s, parent, isBacking).Some? then Obstacle(s, parent, isBacking).value
    else if child.None? then Changed
    else if MayBecomeChild(h, Remaining(s, parent, isBacking), e, parent, child.value, ChildRole(s, parent, isBacking)) && joined then Changed
    else AttachRefused
  }

  // -------------------------------------------------------------- whole operations

  // What the roots reach, parents before children.
  ghost predicate ListsBelow(s: State, roots: seq<NodeId>, list: seq<NodeId>) {
    && Topological(AsGraph(s), list)
    && forall n :: n in list <==> exists r :: r in roots && Reaches(AsGraph(s), r, n)
  }

  ghost predicate RefreshSucceeds(h: Hooks, s: State, list: seq<NodeId>) {
    (forall n :: n in list ==> n in s.nodes) && Refresh(h, s, list).1.Refreshed?
  }

  // bdrv_refresh_perms and bdrv_list_refresh_perms.
  method RefreshIn(tran: Transaction, h: Hooks, roots: seq<NodeId>) returns (ok: bool, ghost list: seq<NodeId>)
    requires tran.Valid() && Acyclic(AsGraph(tran.graph)) && forall r :: r in roots ==> r in tran.graph.nodes
    modifies tran
    ensures tran.Valid() && ListsBelow(old(tran.graph), roots, list)
    ensures ok <==> RefreshSucceeds(h, old(tran.graph), list)
    ensures ok ==> SameShape(old(tran.graph), tran.graph) && forall n :: n in list ==> Settled(h, tran.graph, n)
  {
    ghost var s := tran.graph;
    WellFormedIsClosed(s);
    var order := TopologicalList(AsGraph(tran.graph), roots);
    list := order;
    var r := DoRefreshPerms(tran, h, order);
    ok := r.Refreshed?;
    if ok {
      RefreshSettlesAll(h, s, list);
      RefreshAllChangesBelow(h, s, list);
    }
  }

  // tran_finalize.
  method Finish(tran: Transaction, ok: bool) returns (g: State)
    requires tran.Valid()
    modifies tran
    ensures g == (if ok then Committed(tran.start, old(tran.changes)) else tran.start)
    ensures WellFormed(g) && Transacted(tran.start, g)
    ensures ok ==> Swept(old(tran.graph), g)
  {
    LoggedRemovalsAreEmpty(tran.start, tran.changes);
    CommitSweeps(tran.graph, tran.actions);
    AbortedIsTransacted(tran.start);
    if ok {
      tran.CommitTran();
    } else {
      tran.Abort();
    }
    g := tran.graph;
  }

  // Only edges without a target are gone, and references have been dropped.
  ghost predicate Swept(s: State, t: State) {
    && t.nodes == s.nodes && t.links == s.links && t.inheritsFrom == s.inheritsFrom
    && (forall e :: e in t.edges ==> e in s.edges && t.edges[e] == s.edges[e])
    && (forall e :: e in s.edges && s.edges[e].bs.Some? ==> e in t.edges)
  }

  lemma {:induction false} CommitSweeps(s: State, actions: seq<Action>)
    requires RemovedAreEmpty(s, actions)
    ensures Swept(s, CommitAll(s, actions))
    decreases |actions|
  {
    if actions != [] {
      var t := Commit(s, actions[0]);
      assert actions[0] in actions && forall a :: a in actions[1..] ==> a in actions;
      assert Swept(s, t);
      CommitSweeps(t, actions[1..]);
    }
  }

  lemma SweptSameGraph(s: State, t: State)
    requires Swept(s, t)
    ensures AsGraph(t) == AsGraph(s)
    ensures forall n :: Parents(t, n) == Parents(s, n) && Children(t, n) == Children(s, n)
  {
    forall n
      ensures Parents(t, n) == Parents(s, n) && Children(t, n) == Children(s, n)
    {
    }
    forall n | n in s.nodes
      ensures AsGraph(t)[n] == AsGraph(s)[n]
    {
      assert forall x :: x in AsGraph(s)[n] ==> exists e :: e in Children(t, n) && t.edges[e].bs.value == x;
    }
  }

  lemma SweptStaysSettled(h: Hooks, s: State, t: State, n: NodeId)
    requires Swept(s, t) && Settled(h, s, n)
    ensures Settled(h, t, n)
  {
    SweptSameGraph(s, t);
    assert CumulativePerm(t, n) == CumulativePerm(s, n) && CumulativeShared(t, n) == CumulativeShared(s, n);
  }

  // What holds after an operation with a refresh from some roots has succeeded:
  // mid is the graph before the refresh.
  ghost predicate Refreshes(h: Hooks, mid: State, g: State, roots: seq<NodeId>) {
    && mid.nodes == g.nodes && mid.links == g.links && mid.inheritsFrom == g.inheritsFrom && AsGraph(g) == AsGraph(mid)
    && (forall e :: e in g.edges ==> e in mid.edges && SameEnds(mid.edges[e], g.edges[e]))
    && (forall e :: e in mid.edges && mid.edges[e].bs.Some? ==> e in g.edges)
    && (forall r, n :: r in roots && Reaches(AsGraph(mid), r, n) ==> Settled(h, g, n))
  }

  predicate SameEnds(a: Edge, b: Edge) {
    a.parent == b.parent && a.bs == b.bs && a.role == b.role && a.frozen == b.frozen
  }

  lemma FinishedRefresh(h: Hooks, mid: State, s: State, g: State, roots: seq<NodeId>, list: seq<NodeId>)
    requires SameShape(mid, s) && Swept(s, g)
    requires ListsBelow(mid, roots, list) && forall n :: n in list ==> Settled(h, s, n)
    ensures Refreshes(h, mid, g, roots)
  {
    SameShapeSameGraph(mid, s);
    SweptSameGraph(s, g);
    forall r, n | r in roots && Reaches(AsGraph(mid), r, n)
      ensures Settled(h, g, n)
    {
      SweptStaysSettled(h, s, g, n);
    }
  }

  // The refresh and the end of the transaction.
  method RefreshAndFinish(tran: Transaction, h: Hooks, roots: seq<NodeId>) returns (g: State, ok: bool, ghost list: seq<NodeId>)
    requires tran.Valid() && Acyclic(AsGraph(tran.graph)) && Acyclic(AsGraph(tran.start))
    requires forall r :: r in roots ==> r in tran.graph.nodes
    modifies tran
    ensures ListsBelow(old(tran.graph), roots, list) && (ok <==> RefreshSucceeds(h, old(tran.graph), list))
    ensures WellFormed(g) && Acyclic(AsGraph(g)) && Transacted(tran.start, g)
    ensures if ok then Refreshes(h, old(tran.graph), g, roots) else g == tran.start
  {
    ghost var mid := tran.graph;
    ok, list := RefreshIn(tran, h, roots);
    ghost var s := tran.graph;
    g := Finish(tran, ok);
    if ok {
      FinishedRefresh(h, mid, s, g, roots, list);
    }
  }

  // bdrv_set_backing_hd.
  method SetBackingHd(g: State, h: Hooks, bs: NodeId, backing: Option<NodeId>, e: EdgeId, joined: bool)
    returns (g': State, ok: bool, ghost mid: State, ghost list: seq<NodeId>)
    requires WellFormed(g) && Acyclic(AsGraph(g)) && bs in g.nodes && e !in g.edges
    requires backing.Some? ==> backing.value in g.nodes
    requires Closed(InheritGraph(g)) && Acyclic(InheritGraph(g))
    requires IsFilter(g, bs) ==> g.nodes[bs].drv.value.filteredChildIsBacking
    ensures WellFormed(g') && Acyclic(AsGraph(g')) && Transacted(g, g')
    ensures Verdict(g, h, bs, backing, true, e, joined).Changed? ==>
      HasChild(g, mid, bs, backing, BackingSlot, e) && ListsBelow(mid, [bs], list)
    ensures ok ==> Refreshes(h, mid, g', [bs])
    ensures ok <==> Verdict(g, h, bs, backing, true, e, joined).Changed? && RefreshSucceeds(h, mid, list)
    ensures !ok ==> g' == g
  {
    var tran := new Transaction(g);
    var r := SetFileOrBackingNoperm(tran, h, bs, backing, true, e, joined);
    mid, list := tran.graph, [];
    if r.Changed? {
      g', ok, list := RefreshAndFinish(tran, h, [bs]);
    } else {
      ok := false;
      g' := Finish(tran, false);
    }
  }

  // The graph with the new edge from bsNew to bsTop.
  ghost function Attached(h: Hooks, g: State, bsNew: NodeId, bsTop: NodeId, e: EdgeId): State
    requires Allowed(g, AttachOp(e, NewEdge(h, g, e, bsNew, bsTop, ChildRole(g, bsNew, true))))
  {
    Perform(g, AttachOp(e, NewEdge(h, g, e, bsNew, bsTop, ChildRole(g, bsNew, true))))
  }

  // Appending is possible: the edge is accepted, and no parent edge to move is frozen.
  ghost predicate MayAppend(h: Hooks, g: State, bsNew: NodeId, bsTop: NodeId, e: EdgeId)
    requires Allowed(g, AttachOp(e, NewEdge(h, g, e, bsNew, bsTop, ChildRole(g, bsNew, true))))
  {
    && MayBecomeChild(h, g, e, bsNew, bsTop, ChildRole(g, bsNew, true))
    && var s := Attached(h, g, bsNew, bsTop, e);
       forall f :: f in ToUpdate(s, bsTop, bsNew) ==> !s.edges[f].frozen
  }

  // The new edge belongs to the new node, so it is not redirected.
  lemma NewEdgeStays(h: Hooks, g: State, bsNew: NodeId, bsTop: NodeId, e: EdgeId)
    requires WellFormed(g) && bsNew in g.nodes && bsTop in g.nodes && !Reaches(AsGraph(g), bsTop, bsNew)
    requires Allowed(g, AttachOp(e, NewEdge(h, g, e, bsNew, bsTop, ChildRole(g, bsNew, true))))
    ensures var s := Attached(h, g, bsNew, bsTop, e);
      && s.nodes == g.nodes && e in s.edges && s.edges[e].bs == Some(bsTop) && e !in ToUpdate(s, bsTop, bsNew)
    ensures bsNew != bsTop
  {
    var s := Attached(h, g, bsNew, bsTop, e);
    AttachEffect(g, e, NewEdge(h, g, e, bsNew, bsTop, ChildRole(g, bsNew, true)));
    ReachesSelf(AsGraph(g), bsTop);
    ReachesSelf(AsGraph(s), bsNew);
    assert OwnedBelow(s, e, bsNew);
  }

  // The new node is attached and takes the place of the old one.
  method AppendNoperm(tran: Transaction, h: Hooks, bsNew: NodeId, bsTop: NodeId, e: EdgeId, joined: bool) returns (ok: bool)
    requires tran.Valid() && Acyclic(AsGraph(tran.graph)) && bsNew in tran.graph.nodes && bsTop in tran.graph.nodes
    requires Allowed(tran.graph, AttachOp(e, NewEdge(h, tran.graph, e, bsNew, bsTop, ChildRole(tran.graph, bsNew, true))))
    modifies tran
    ensures tran.Valid() && (ok <==> MayAppend(h, old(tran.graph), bsNew, bsTop, e) && joined)
    ensures ok ==> var s := Attached(h, old(tran.graph), bsNew, bsTop, e);
      Redirected(s, tran.graph, bsNew, ToUpdate(s, bsTop, bsNew)) && Acyclic(AsGraph(tran.graph))
    ensures ok ==> tran.graph.nodes == old(tran.graph).nodes && e in tran.graph.edges && tran.graph.edges[e].bs == Some(bsTop)
  {
    ghost var g := tran.graph;
    ok := AttachChildNoperm(tran, h, e, bsNew, bsTop, ChildRole(tran.graph, bsNew, true), joined);
    if ok {
      NewEdgeStays(h, g, bsNew, bsTop, e);
      var r := ReplaceNodeNoperm(tran, bsTop, bsNew, true);
      ok := r.Replaced?;
    }
  }

  // bdrv_append.
  method Append(g: State, h: Hooks, bsNew: NodeId, bsTop: NodeId, e: EdgeId, joined: bool)
    returns (g': State, ok: bool, ghost mid: State, ghost list: seq<NodeId>)
    requires WellFormed(g) && Acyclic(AsGraph(g)) && bsNew in g.nodes && bsTop in g.nodes
    requires Allowed(g, AttachOp(e, NewEdge(h, g, e, bsNew, bsTop, ChildRole(g, bsNew, true))))
    ensures WellFormed(g') && Acyclic(AsGraph(g')) && Transacted(g, g')
    ensures MayAppend(h, g, bsNew, bsTop, e) && joined ==>
      var s := Attached(h, g, bsNew, bsTop, e);
      Redirected(s, mid, bsNew, ToUpdate(s, bsTop, bsNew)) && ListsBelow(mid, [bsNew], list)
    ensures ok <==> MayAppend(h, g, bsNew, bsTop, e) && joined && RefreshSucceeds(h, mid, list)
    ensures ok ==> Refreshes(h, mid, g', [bsNew]) && e in g'.edges && g'.edges[e].bs == Some(bsTop)
    ensures !ok ==> g' == g
  {
    var tran := new Transaction(g);
    ok := AppendNoperm(tran, h, bsNew, bsTop, e, joined);
    mid, list := tran.graph, [];
    if ok {
      g', ok, list := RefreshAndFinish(tran, h, [bsNew]);
    } else {
      g' := Finish(tran, false);
    }
  }

  // The replacement is possible: no edge to redirect is frozen, none must be skipped.
  ghost predicate MayReplace(g: State, from: NodeId, to: NodeId, autoSkip: bool) {
    && (autoSkip || ToUpdate(g, from, to) == Parents(g, from))
    && (forall f :: f in ToUpdate(g, from, to) ==> !g.edges[f].frozen)
  }

  // bdrv_replace_node_common.
  method ReplaceNode(g: State, h: Hooks, from: NodeId, to: NodeId, autoSkip: bool)
    returns (g': State, ok: bool, ghost mid: State, ghost list: seq<NodeId>)
    requires WellFormed(g) && Acyclic(AsGraph(g)) && from in g.nodes && to in g.nodes && from != to
    ensures WellFormed(g') && Acyclic(AsGraph(g')) && Transacted(g, g')
    ensures MayReplace(g, from, to, autoSkip) ==>
      Redirected(g, mid, to, ToUpdate(g, from, to)) && ListsBelow(mid, [from, to], list)
    ensures ok <==> MayReplace(g, from, to, autoSkip) && RefreshSucceeds(h, mid, list)
    ensures ok ==> Refreshes(h, mid, g', [from, to])
    ensures !ok ==> g' == g
  {
    var tran := new Transaction(g);
    var r := ReplaceNodeNoperm(tran, from, to, autoSkip);
    mid, list := tran.graph, [];
    if r.Replaced? {
      g', ok, list := RefreshAndFinish(tran, h, [from, to]);
    } else {
      ok := false;
      g' := Finish(tran, false);
    }
  }
}
