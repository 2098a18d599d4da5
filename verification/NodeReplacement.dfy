/**
 Replacing a node by another one, and putting a node on top of a chain, without
 creating a cycle (xemu/block.c:4346-4362, 5247-5397, 5487-5523).
 */
module NodeReplacement {

  import opened Wrappers
  import opened BlockGraph
  import opened GraphTransaction
  import opened Reachability
  import opened Permissions

  // ------------------------------------------------------------- redirected edges

  // What a reaches.
  ghost function ReachSet(g: Graph, a: nat): set<nat> {
    set x | x in g && Reaches(g, a, x)
  }

  lemma ReachSetClosed(g: Graph, a: nat)
    requires Closed(g) && a in g
    ensures a in ReachSet(g, a)
    ensures forall n, m :: n in ReachSet(g, a) && n in g && m in g[n] ==> m in ReachSet(g, a)
  {
    ReachesSelf(g, a);
    forall n, m | n in ReachSet(g, a) && n in g && m in g[n]
      ensures m in ReachSet(g, a)
    {
      ReachesThenEdge(g, a, n, m);
    }
  }

  // Some nodes that `to` does not reach got edges to it, possibly instead of others.
  ghost predicate Redirects(g: Graph, g': Graph, to: nat) {
    && g'.Keys == g.Keys
    && to in g
    && (forall n :: n in g && Reaches(g, to, n) ==> g'[n] == g[n])
    && (forall n :: n in g ==> g'[n] <= g[n] + {to})
  }

  // On a set that no edge of g leaves, g' has all edges of g.
  ghost predicate Keeps(g: Graph, g': Graph, s: set<nat>) {
    s <= g'.Keys && forall n, m :: n in s && n in g && m in g[n] ==> m in s && m in g'[n]
  }

  // A path inside such a set.
  lemma {:induction false} PathCarriesOver(g: Graph, g': Graph, s: set<nat>, p: seq<nat>)
    requires IsPath(g, p) && p[0] in s && Keeps(g, g', s)
    ensures IsPath(g', p)
  {
    if |p| > 1 {
      assert p[0 + 1] in g[p[0]];
      PathCarriesOver(g, g', s, p[1..]);
      forall i | 0 <= i < |p| - 1
        ensures p[i + 1] in g'[p[i]]
      {
        if i > 0 {
          assert p[1..][i - 1 + 1] in g'[p[1..][i - 1]];
        }
      }
    }
  }

  lemma RedirectKeepsReach(g: Graph, g': Graph, to: nat, x: nat)
    requires Closed(g) && Redirects(g, g', to)
    ensures Reaches(g', to, x) <==> Reaches(g, to, x)
  {
    var s := ReachSet(g, to);
    ReachSetClosed(g, to);
    if Reaches(g, to, x) {
      var p :| PathFromTo(g, p, to, x);
      PathCarriesOver(g, g', s, p);
      assert PathFromTo(g', p, to, x);
    }
    if Reaches(g', to, x) {
      ReachedInClosedSet(g', s, to, x);
    }
  }

  // A path in the new graph that avoids what `to` reaches is a path in the old one.
  lemma AvoidingPathIsOld(g: Graph, g': Graph, to: nat, p: seq<nat>)
    requires Redirects(g, g', to) && IsPath(g', p)
    requires forall i :: 0 <= i < |p| ==> p[i] != to
    ensures IsPath(g, p)
  {
  }

  lemma {:induction false} LaterNodesOutside(g: Graph, s: set<nat>, p: seq<nat>, i: nat)
    requires IsPath(g, p) && i < |p| && p[|p| - 1] !in s
    requires forall n, m :: n in s && n in g && m in g[n] ==> m in s
    ensures p[i] !in s
  {
    if p[i] in s {
      assert IsPath(g, p[i..]);
      ClosedSetHolds(g, s, p[i..]);
    }
  }

  // Redirecting edges to `to`, from nodes it does not reach, creates no cycle.
  lemma RedirectKeepsAcyclic(g: Graph, g': Graph, to: nat)
    requires Closed(g) && Acyclic(g) && Redirects(g, g', to)
    ensures Acyclic(g') && Closed(g')
  {
    var s := ReachSet(g, to);
    ReachSetClosed(g, to);
    forall a, b | a in g' && b in g'[a]
      ensures !Reaches(g', b, a)
    {
      if a in s {
        // Everything the cycle would use belongs to the old graph already.
        forall p | PathFromTo(g', p, b, a)
          ensures PathFromTo(g, p, b, a)
        {
          PathCarriesOver(g', g, s, p);
        }
      } else {
        forall p | PathFromTo(g', p, b, a)
          ensures PathFromTo(g, p, b, a) && b != to
        {
          forall i | 0 <= i < |p|
            ensures p[i] != to
          {
            LaterNodesOutside(g', s, p, i);
          }
          AvoidingPathIsOld(g, g', to, p);
        }
      }
    }
  }

  // ------------------------------------------------------------------ searching

  lemma ChildReachesLess(g: Graph, bs: nat, c: nat)
    requires Closed(g) && Acyclic(g) && bs in g && c in g[bs]
    ensures ReachSet(g, c) < ReachSet(g, bs)
  {
    forall x | x in ReachSet(g, c)
      ensures x in ReachSet(g, bs)
    {
      ReachesByEdge(g, bs, c, x);
    }
    ReachesSelf(g, bs);
    assert bs in ReachSet(g, bs) && bs !in ReachSet(g, c);
  }

  // bdrv_recurse_has_child: a search that does not remember where it has been
  // ends because the graph has no cycle.
  method RecurseHasChild(g: Graph, bs: nat, child: nat) returns (found: bool)
    requires Closed(g) && Acyclic(g) && bs in g
    ensures found <==> Reaches(g, bs, child)
    decreases ReachSet(g, bs)
  {
    if bs == child {
      ReachesSelf(g, bs);
      return true;
    }
    var rest := g[bs];
    while rest != {}
      invariant rest <= g[bs]
      invariant forall c :: c in g[bs] - rest ==> !Reaches(g, c, child)
    {
      var c :| c in rest;
      ChildReachesLess(g, bs, c);
      var r := RecurseHasChild(g, c, child);
      if r {
        ReachesByEdge(g, bs, c, child);
        return true;
      }
      rest := rest - {c};
    }
    if Reaches(g, bs, child) {
      FirstEdge(g, bs, child);
    }
    return false;
  }

  // The edge e belongs to a node that `to` reaches.
  ghost predicate OwnedBelow(s: State, e: EdgeId, to: NodeId)
    requires e in s.edges
  {
    s.edges[e].parent.Some? && Reaches(AsGraph(s), to, s.edges[e].parent.value)
  }

  // Whether e may be redirected to `to`.
  ghost predicate ShouldUpdate(s: State, e: EdgeId, to: NodeId)
    requires e in s.edges
  {
    !s.edges[e].stayAtNode && !OwnedBelow(s, e, to)
  }

  // Looking at the children of v, as far as c: the nodes that are new.
  method ScanChildren(s: State, c: EdgeId, v: NodeId, found: set<NodeId>)
    returns (hit: bool, added: seq<NodeId>, found': set<NodeId>)
    requires WellFormed(s)
    ensures hit <==> c in Children(s, v)
    ensures found' == found + set x | x in added
    ensures forall x :: x in added ==> exists e :: e in Children(s, v) && s.edges[e].bs == Some(x)
    ensures forall x :: x in added ==> x !in found
    ensures !hit ==> forall e :: e in Children(s, v) ==> s.edges[e].bs.value in found'
  {
    added, found' := [], found;
    var rest := Children(s, v);
    while rest != {}
      invariant rest <= Children(s, v) && (c in Children(s, v) ==> c in rest)
      invariant found' == found + set x | x in added
      invariant forall x :: x in added ==> exists e :: e in Children(s, v) && s.edges[e].bs == Some(x)
      invariant forall x :: x in added ==> x !in found
      invariant forall e :: e in Children(s, v) - rest ==> s.edges[e].bs.value in found'
    {
      var c2 :| c2 in rest;
      if c2 == c {
        return true, added, found';
      }
      var x := s.edges[c2].bs.value;
      if x !in found' {
        added, found' := added + [x], found' + {x};
      }
      rest := rest - {c2};
    }
    hit := false;
  }

  // A search that has looked at all found nodes without seeing e has missed nothing.
  lemma SearchComplete(s: State, e: EdgeId, to: NodeId, found: set<NodeId>)
    requires WellFormed(s) && e in s.edges && to in found && found <= s.nodes.Keys
    requires s.edges[e].bs.Some?
    requires forall v :: v in found ==> e !in Children(s, v)
    requires forall v, f :: v in found && f in Children(s, v) ==> s.edges[f].bs.value in found
    ensures !OwnedBelow(s, e, to)
  {
    var g := AsGraph(s);
    forall n, m | n in found && n in g && m in g[n]
      ensures m in found
    {
      var f :| f in Children(s, n) && s.edges[f].bs.value == m;
    }
    if OwnedBelow(s, e, to) {
      ReachedInClosedSet(g, found, to, s.edges[e].parent.value);
    }
  }

  lemma ChildIsReached(s: State, to: NodeId, v: NodeId, x: NodeId)
    requires WellFormed(s) && v in s.nodes && Reaches(AsGraph(s), to, v)
    requires exists e :: e in Children(s, v) && s.edges[e].bs == Some(x)
    ensures x in s.nodes && Reaches(AsGraph(s), to, x)
  {
    var e :| e in Children(s, v) && s.edges[e].bs == Some(x);
    ReachesThenEdge(AsGraph(s), to, v, x);
  }

  // should_update_child: a breadth-first search for c below `to`.
  method ShouldUpdateChild(s: State, c: EdgeId, to: NodeId) returns (ret: bool)
    requires WellFormed(s) && c in s.edges && s.edges[c].bs.Some? && to in s.nodes
    ensures ret <==> ShouldUpdate(s, c, to)
  {
    if s.edges[c].stayAtNode {
      return false;
    }
    ret := true;
    var found := {to};
    var queue := [to];
    ReachesSelf(AsGraph(s), to);
    while queue != []
      invariant to in found && found <= s.nodes.Keys
      invariant forall v :: v in queue ==> v in found
      invariant forall v :: v in found ==> Reaches(AsGraph(s), to, v)
      invariant !ret ==> OwnedBelow(s, c, to)
      invariant ret ==> forall v :: v in found && v !in queue ==> c !in Children(s, v)
      invariant ret ==> forall v, f :: v in found && v !in queue && f in Children(s, v) ==> s.edges[f].bs.value in found
      decreases s.nodes.Keys - found, |queue|
    {
      var v := queue[0];
      var hit, added, found' := ScanChildren(s, c, v, found);
      if hit {
        ret := false;
      }
      forall x | x in added
        ensures x in s.nodes && Reaches(AsGraph(s), to, x)
      {
        ChildIsReached(s, to, v, x);
      }
      ghost var before := queue;
      assert added == [] ==> found' == found;
      assert added != [] ==> added[0] in found' && added[0] !in found;
      queue := queue[1..] + added;
      assert forall x :: x in before ==> x == v || x in before[1..];
      found := found';
    }
    if ret {
      SearchComplete(s, c, to, found);
    }
  }

  // ---------------------------------------------------------------- replacement

  // The edges in d now point to `to`; nothing else about the edges changed.
  ghost predicate Redirected(s: State, t: State, to: NodeId, d: set<EdgeId>) {
    && t.nodes == s.nodes && t.inheritsFrom == s.inheritsFrom
    && t.edges.Keys == s.edges.Keys
    && forall e :: e in s.edges ==>
         t.edges[e] == if e in d then s.edges[e].(bs := Some(to)) else s.edges[e]
  }

  lemma WellFormedIsClosed(s: State)
    requires WellFormed(s)
    ensures Closed(AsGraph(s))
  {
  }

  lemma RedirectedGraph(s: State, t: State, to: NodeId, d: set<EdgeId>)
    requires WellFormed(s) && to in s.nodes && Redirected(s, t, to, d)
    requires forall e :: e in d ==> e in s.edges && s.edges[e].bs.Some? && !OwnedBelow(s, e, to)
    ensures Redirects(AsGraph(s), AsGraph(t), to)
  {
  }

  // Redirecting edges does not change which edges may be redirected.
  lemma SameDecision(s: State, t: State, to: NodeId, d: set<EdgeId>, e: EdgeId)
    requires WellFormed(s) && to in s.nodes && Redirected(s, t, to, d) && e in s.edges
    requires forall f :: f in d ==> f in s.edges && s.edges[f].bs.Some? && !OwnedBelow(s, f, to)
    ensures ShouldUpdate(t, e, to) <==> ShouldUpdate(s, e, to)
  {
    RedirectedGraph(s, t, to, d);
    WellFormedIsClosed(s);
    if s.edges[e].parent.Some? {
      RedirectKeepsReach(AsGraph(s), AsGraph(t), to, s.edges[e].parent.value);
    }
  }

  lemma AttachedSlotIsFree(s: State, e: EdgeId)
    requires WellFormed(s) && e in s.edges && s.edges[e].bs.Some?
    ensures SlotFree(s, e)
  {
    var c := s.edges[e];
    var slot := EdgeSlot(s.nodes, c.parent, c.role);
    if c.parent.Some? {
      assert LinksTo(s, c.parent.value, slot, e) <==> slot != NoSlot && TakesSlot(s, e, c.parent.value, slot);
    }
  }

  // The parents of from that are to be redirected.
  ghost function ToUpdate(s: State, from: NodeId, to: NodeId): set<EdgeId> {
    set e | e in Parents(s, from) && ShouldUpdate(s, e, to)
  }

  datatype Result = Replaced | ShouldNotChange | FrozenLink

  lemma ReplaceOneMore(s: State, t: State, from: NodeId, to: NodeId, d: set<EdgeId>, e: EdgeId)
    requires WellFormed(s) && WellFormed(t) && from != to && to in s.nodes && Redirected(s, t, to, d)
    requires e in Parents(s, from) && e !in d && !s.edges[e].frozen
    ensures Allowed(t, ReplaceOp(e, Some(to)))
    ensures Redirected(s, Perform(t, ReplaceOp(e, Some(to))), to, d + {e})
  {
    AttachedSlotIsFree(t, e);
    ReplaceNopermIs(t, e, Some(to));
  }

  lemma RedirectedIsAcyclic(s: State, t: State, to: NodeId, d: set<EdgeId>)
    requires WellFormed(s) && to in s.nodes && Redirected(s, t, to, d) && Acyclic(AsGraph(s))
    requires forall e :: e in d ==> e in s.edges && s.edges[e].bs.Some? && !OwnedBelow(s, e, to)
    ensures Acyclic(AsGraph(t))
  {
    WellFormedIsClosed(s);
    RedirectedGraph(s, t, to, d);
    RedirectKeepsAcyclic(AsGraph(s), AsGraph(t), to);
  }

  // One round of the loop: skip the parent edge c, refuse it, or redirect it.
  method RedirectParent(tran: Transaction, from: NodeId, to: NodeId, c: EdgeId, autoSkip: bool, ghost s: State, ghost d: set<EdgeId>)
    returns (r: Result)
    requires tran.Valid() && WellFormed(s) && from != to && to in s.nodes
    requires Redirected(s, tran.graph, to, d) && d <= ToUpdate(s, from, to) && c in Parents(s, from) - d
    modifies tran
    ensures tran.Valid()
    ensures r == if ShouldUpdate(s, c, to) then (if s.edges[c].frozen then FrozenLink else Replaced)
                 else (if autoSkip then Replaced else ShouldNotChange)
    ensures Redirected(s, tran.graph, to, if r.Replaced? && ShouldUpdate(s, c, to) then d + {c} else d)
  {
    SameDecision(s, tran.graph, to, d, c);
    var should := ShouldUpdateChild(tran.graph, c, to);
    if !should {
      return if autoSkip then Replaced else ShouldNotChange;
    }
    if tran.graph.edges[c].frozen {
      return FrozenLink;
    }
    ReplaceOneMore(s, tran.graph, from, to, d, c);
    tran.ReplaceChildTran(c, Some(to));
    return Replaced;
  }

  // The loop gets past parent edge c.
  ghost predicate Passes(s: State, to: NodeId, autoSkip: bool, c: EdgeId) {
    c in s.edges && if ShouldUpdate(s, c, to) then !s.edges[c].frozen else autoSkip
  }

  lemma OneLess(s: State, from: NodeId, to: NodeId, rest: set<EdgeId>, c: EdgeId)
    requires c in rest && rest <= Parents(s, from)
    ensures var d := ToUpdate(s, from, to) - rest;
      ToUpdate(s, from, to) - (rest - {c}) == if ShouldUpdate(s, c, to) then d + {c} else d
  {
  }

  // The loop over the parents of from.
  method RedirectParents(tran: Transaction, from: NodeId, to: NodeId, autoSkip: bool) returns (r: Result)
    requires tran.Valid() && to in tran.graph.nodes && from != to
    modifies tran
    ensures tran.Valid()
    ensures var s := old(tran.graph);
      && (r.Replaced? <==> forall c :: c in Parents(s, from) ==> Passes(s, to, autoSkip, c))
      && (r.Replaced? ==> Redirected(s, tran.graph, to, ToUpdate(s, from, to)))
  {
    ghost var s := tran.graph;
    var rest := Parents(tran.graph, from);
    while rest != {}
      invariant tran.Valid() && rest <= Parents(s, from)
      invariant Redirected(s, tran.graph, to, ToUpdate(s, from, to) - rest)
      invariant forall c :: c in Parents(s, from) - rest ==> Passes(s, to, autoSkip, c)
    {
      var c :| c in rest;
      OneLess(s, from, to, rest, c);
      r := RedirectParent(tran, from, to, c, autoSkip, s, ToUpdate(s, from, to) - rest);
      if !r.Replaced? {
        return;
      }
      rest := rest - {c};
    }
    return Replaced;
  }

  // bdrv_replace_node_noperm.  It succeeds exactly if no edge to be redirected is
  // frozen and, unless others are skipped, every parent edge is to be redirected.
  // Then exactly those edges are redirected, and the graph stays acyclic.
  method ReplaceNodeNoperm(tran: Transaction, from: NodeId, to: NodeId, autoSkip: bool) returns (r: Result)
    requires tran.Valid() && from in tran.graph.nodes && to in tran.graph.nodes && from != to
    requires Acyclic(AsGraph(tran.graph))
    modifies tran
    ensures tran.Valid()
    ensures var s := old(tran.graph);
      && (r.Replaced? <==>
            && (autoSkip || ToUpdate(s, from, to) == Parents(s, from))
            && forall e :: e in ToUpdate(s, from, to) ==> !s.edges[e].frozen)
      && (r.Replaced? ==>
            && Redirected(s, tran.graph, to, ToUpdate(s, from, to))
            && Acyclic(AsGraph(tran.graph)))
  {
    ghost var s := tran.graph;
    r := RedirectParents(tran, from, to, autoSkip);
    if r.Replaced? {
      RedirectedIsAcyclic(s, tran.graph, to, ToUpdate(s, from, to));
    }
  }
}
