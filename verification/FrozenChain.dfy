/**
 Freezing the links of a backing chain (xemu/block.c:5758-5843, 8301-8366), and
 what a frozen chain survives.
 */
module FrozenChain {

  import opened Sequences
  import opened Wrappers
  import opened BlockGraph
  import opened GraphTransaction

  // bdrv_filter_or_cow_child.
  function ChainEdge(s: State, n: NodeId): Option<EdgeId> {
    if n !in s.nodes || s.nodes[n].drv.None? then None
    else if !s.nodes[n].drv.value.isFilter || Link(s, n, BackingSlot).Some? then Link(s, n, BackingSlot)
    else Link(s, n, FileSlot)
  }

  // It is the filtered child of a filter and the COW child of any other node, as the
  // code asserts, and a filter has one link only.
  lemma ChainEdgeMeaning(s: State, n: NodeId, e: EdgeId)
    requires WellFormed(s) && n in s.nodes && s.nodes[n].drv.Some?
    requires s.nodes[n].drv.value.filteredChildIsBacking ==> s.nodes[n].drv.value.isFilter
    ensures var d := s.nodes[n].drv.value;
      && (ChainEdge(s, n) == Some(e) <==>
            e in Children(s, n) && if d.isFilter then s.edges[e].role.filtered else s.edges[e].role.cow)
      && (d.isFilter ==> Link(s, n, BackingSlot).None? || Link(s, n, FileSlot).None?)
  {
    LinkIsTaken(s, n, BackingSlot);
    LinkIsTaken(s, n, FileSlot);
    assert LinksTo(s, n, BackingSlot, e) <==> TakesSlot(s, e, n, BackingSlot);
    assert LinksTo(s, n, FileSlot, e) <==> TakesSlot(s, e, n, FileSlot);
  }

  lemma LinkIsTaken(s: State, n: NodeId, slot: Slot)
    requires WellFormed(s) && slot != NoSlot
    ensures Link(s, n, slot).Some? ==> TakesSlot(s, Link(s, n, slot).value, n, slot)
  {
    if Link(s, n, slot).Some? {
      assert LinksTo(s, n, slot, Link(s, n, slot).value);
    }
  }

  // The edges from bs down to base, or to the end of the chain.
  ghost predicate IsChain(s: State, bs: NodeId, base: Option<NodeId>, chain: seq<EdgeId>)
    decreases |chain|
  {
    if chain == [] then base == Some(bs) || (base.None? && ChainEdge(s, bs).None?)
    else
      && base != Some(bs)
      && ChainEdge(s, bs) == Some(chain[0])
      && chain[0] in s.edges && s.edges[chain[0]].bs.Some?
      && IsChain(s, s.edges[chain[0]].bs.value, base, chain[1..])
  }

  lemma {:induction false} ChainIsUnique(s: State, bs: NodeId, base: Option<NodeId>, c: seq<EdgeId>, d: seq<EdgeId>)
    requires IsChain(s, bs, base, c) && IsChain(s, bs, base, d)
    ensures c == d
    decreases |c|
  {
    if c != [] && d != [] {
      ChainIsUnique(s, s.edges[c[0]].bs.value, base, c[1..], d[1..]);
      assert c == [c[0]] + c[1..] && d == [d[0]] + d[1..];
    }
  }

  lemma {:induction false} ChainRest(s: State, bs: NodeId, base: Option<NodeId>, chain: seq<EdgeId>, i: nat)
    requires IsChain(s, bs, base, chain) && i < |chain|
    ensures chain[i] in s.edges && s.edges[chain[i]].bs.Some?
    ensures IsChain(s, s.edges[chain[i]].bs.value, base, chain[i + 1..])
    decreases i
  {
    if i > 0 {
      ChainRest(s, s.edges[chain[0]].bs.value, base, chain[1..], i - 1);
      assert chain[1..][i - 1] == chain[i] && chain[1..][i..] == chain[i + 1..];
    }
  }

  lemma ChainHasNoDuplicates(s: State, bs: NodeId, base: Option<NodeId>, chain: seq<EdgeId>, i: nat, j: nat)
    requires IsChain(s, bs, base, chain) && i < j < |chain|
    ensures chain[i] != chain[j]
  {
    ChainRest(s, bs, base, chain, i);
    ChainRest(s, bs, base, chain, j);
    if chain[i] == chain[j] {
      ChainIsUnique(s, s.edges[chain[i]].bs.value, base, chain[i + 1..], chain[j + 1..]);
    }
  }

  lemma ChainEdgesExist(s: State, bs: NodeId, base: Option<NodeId>, chain: seq<EdgeId>)
    requires IsChain(s, bs, base, chain)
    ensures forall e :: e in chain ==> e in s.edges
  {
    forall i | 0 <= i < |chain|
      ensures chain[i] in s.edges
    {
      ChainRest(s, bs, base, chain, i);
    }
  }

  // The graph with the frozen flag of some edges set or cleared.
  function WithFrozen(s: State, es: set<EdgeId>, frozen: bool): State {
    s.(edges := map e | e in s.edges :: if e in es then s.edges[e].(frozen := frozen) else s.edges[e])
  }

  lemma {:induction false} FreezingKeepsChain(s: State, es: set<EdgeId>, frozen: bool, bs: NodeId, base: Option<NodeId>, chain: seq<EdgeId>)
    requires IsChain(s, bs, base, chain)
    ensures IsChain(WithFrozen(s, es, frozen), bs, base, chain)
    decreases |chain|
  {
    if chain != [] {
      FreezingKeepsChain(s, es, frozen, s.edges[chain[0]].bs.value, base, chain[1..]);
    }
  }

  ghost predicate AllFrozen(s: State, chain: seq<EdgeId>) {
    forall e :: e in chain ==> e in s.edges && s.edges[e].frozen
  }

  ghost predicate AnyFrozen(s: State, chain: seq<EdgeId>) {
    exists e :: e in chain && e in s.edges && s.edges[e].frozen
  }

  // Some edge leads to a node that must not be frozen into a chain.
  ghost predicate AnyNeverFreeze(s: State, chain: seq<EdgeId>) {
    exists e :: e in chain && LeadsToNeverFreeze(s, e)
  }

  // ------------------------------------------------- what graph changes leave alone

  ghost predicate Frozen(s: State, e: EdgeId) {
    e in s.edges && s.edges[e].frozen
  }

  // The same edges are frozen, and they still join the same nodes.
  ghost predicate SameFrozen(s: State, t: State) {
    && s.nodes == t.nodes
    && (forall e :: Frozen(s, e) <==> Frozen(t, e))
    && (forall e :: Frozen(s, e) ==>
          s.edges[e].parent == t.edges[e].parent && s.edges[e].bs == t.edges[e].bs && s.edges[e].role == t.edges[e].role)
  }

  lemma ChangeKeepsFrozen(s: State, op: Op)
    requires WellFormed(s) && Allowed(s, op)
    ensures SameFrozen(s, Perform(s, op))
  {
    match op
    case ReplaceOp(e, bs) => ReplaceNopermIs(s, e, bs);
    case RemoveOp(e) => if s.edges[e].bs.Some? { ReplaceNopermIs(s, e, None); }
    case AttachOp(e, edge) =>
      EmptyEdgeKeepsWellFormed(s, e, edge);
      ReplaceNopermIs(s.(edges := s.edges[e := edge.(bs := None)]), e, edge.bs);
    case _ =>
  }

  lemma {:induction false} ChangesKeepFrozen(s: State, ops: seq<Op>)
    requires WellFormed(s) && AllAllowed(s, ops)
    ensures WellFormed(PerformAll(s, ops)) && SameFrozen(s, PerformAll(s, ops))
    decreases |ops|
  {
    if ops != [] {
      ChangeKeepsFrozen(s, ops[0]);
      ChangeIsUndone(s, ops[0]);
      ChangesKeepFrozen(Perform(s, ops[0]), ops[1..]);
    }
  }

  lemma LinkSame(s: State, t: State, n: NodeId, slot: Slot, e: EdgeId)
    requires WellFormed(s) && WellFormed(t) && SameFrozen(s, t) && Frozen(s, e)
    ensures LinksTo(s, n, slot, e) <==> LinksTo(t, n, slot, e)
  {
  }

  // A filter driver keeps its filtered child in one of the two slots, always the same.
  lemma FilterSlot(s: State, n: NodeId, slot: Slot)
    requires WellFormed(s) && n in s.nodes && s.nodes[n].drv.Some? && s.nodes[n].drv.value.isFilter
    requires (n, slot) in s.links
    ensures slot == if s.nodes[n].drv.value.filteredChildIsBacking then BackingSlot else FileSlot
  {
    var e := s.links[(n, slot)];
    assert LinksTo(s, n, slot, e) <==> slot != NoSlot && TakesSlot(s, e, n, slot);
  }

  lemma ChainEdgeSame(s: State, t: State, n: NodeId, e: EdgeId)
    requires WellFormed(s) && WellFormed(t) && SameFrozen(s, t)
    requires ChainEdge(s, n) == Some(e) && Frozen(s, e)
    ensures ChainEdge(t, n) == Some(e)
  {
    LinkSame(s, t, n, BackingSlot, e);
    LinkSame(s, t, n, FileSlot, e);
    if s.nodes[n].drv.value.isFilter && (n, BackingSlot) in t.links {
      FilterSlot(t, n, BackingSlot);
      FilterSlot(s, n, if LinksTo(s, n, BackingSlot, e) then BackingSlot else FileSlot);
    }
  }

  lemma {:induction false} ChainToBaseSame(s: State, t: State, bs: NodeId, base: NodeId, chain: seq<EdgeId>)
    requires WellFormed(s) && WellFormed(t) && SameFrozen(s, t)
    requires IsChain(s, bs, Some(base), chain) && AllFrozen(s, chain)
    ensures IsChain(t, bs, Some(base), chain) && AllFrozen(t, chain)
    decreases |chain|
  {
    if chain != [] {
      assert Frozen(s, chain[0]);
      ChainEdgeSame(s, t, bs, chain[0]);
      assert forall e :: e in chain[1..] ==> e in chain;
      ChainToBaseSame(s, t, s.edges[chain[0]].bs.value, base, chain[1..]);
      assert forall e :: e in chain ==> Frozen(s, e);
    }
  }

  // The node a chain leads to.
  ghost function Bottom(s: State, bs: NodeId, chain: seq<EdgeId>): NodeId
  {
    if chain == [] then bs
    else
      var e := chain[|chain| - 1];
      if e in s.edges && s.edges[e].bs.Some? then s.edges[e].bs.value else bs
  }

  lemma BottomRest(s: State, bs: NodeId, base: Option<NodeId>, chain: seq<EdgeId>)
    requires IsChain(s, bs, base, chain) && chain != []
    ensures Bottom(s, bs, chain) == Bottom(s, s.edges[chain[0]].bs.value, chain[1..])
  {
    ChainRest(s, bs, base, chain, |chain| - 1);
    if |chain| > 1 {
      assert chain[1..][|chain| - 2] == chain[|chain| - 1];
    }
  }

  lemma {:induction false} ChainToEndSame(s: State, t: State, bs: NodeId, chain: seq<EdgeId>)
    requires WellFormed(s) && WellFormed(t) && SameFrozen(s, t)
    requires IsChain(s, bs, None, chain) && AllFrozen(s, chain)
    requires ChainEdge(t, Bottom(s, bs, chain)).None?
    ensures IsChain(t, bs, None, chain) && AllFrozen(t, chain)
    decreases |chain|
  {
    if chain != [] {
      assert Frozen(s, chain[0]);
      ChainEdgeSame(s, t, bs, chain[0]);
      assert forall e :: e in chain[1..] ==> e in chain;
      BottomRest(s, bs, None, chain);
      ChainToEndSame(s, t, s.edges[chain[0]].bs.value, chain[1..]);
      assert forall e :: e in chain ==> Frozen(s, e);
    }
  }

  lemma {:induction false} FrozenChainsAgree(s: State, t: State, bs: NodeId, chain: seq<EdgeId>, other: seq<EdgeId>)
    requires WellFormed(s) && WellFormed(t) && SameFrozen(s, t)
    requires IsChain(s, bs, None, chain) && AllFrozen(s, chain)
    requires IsChain(t, bs, None, other) && AllFrozen(t, other)
    ensures ChainEdge(t, Bottom(s, bs, chain)).None?
    decreases |chain|
  {
    if other != [] {
      assert Frozen(t, other[0]);
      ChainEdgeSame(t, s, bs, other[0]);
      assert forall e :: e in other[1..] ==> e in other;
      assert forall e :: e in chain[1..] ==> e in chain;
      BottomRest(s, bs, None, chain);
      FrozenChainsAgree(s, t, s.edges[chain[0]].bs.value, chain[1..], other[1..]);
    } else if chain != [] {
      assert Frozen(s, chain[0]);
      ChainEdgeSame(s, t, bs, chain[0]);
      assert false;
    }
  }

  // What bdrv_unfreeze_backing_chain asks of its callers.
  ghost predicate MayUnfreeze(s: State, bs: NodeId, base: Option<NodeId>) {
    exists chain :: IsChain(s, bs, base, chain) && AllFrozen(s, chain)
  }

  lemma {:induction false} CommitKeepsFrozen(s: State, actions: seq<Action>)
    requires RemovedAreEmpty(s, actions)
    ensures SameFrozen(s, CommitAll(s, actions))
    decreases |actions|
  {
    if actions != [] {
      assert actions[0] in actions && forall a :: a in actions[1..] ==> a in actions;
      assert SameFrozen(s, Commit(s, actions[0]));
      CommitKeepsFrozen(Commit(s, actions[0]), actions[1..]);
    }
  }

  lemma TransactionKeepsFrozen(s: State, t: State)
    requires WellFormed(s) && Transacted(s, t)
    ensures WellFormed(t) && SameFrozen(s, t)
  {
    var ops :| AllAllowed(s, ops) && t == Committed(s, ops);
    ChangesKeepFrozen(s, ops);
    LoggedRemovalsAreEmpty(s, ops);
    CommitKeepsFrozen(PerformAll(s, ops), Log(s, ops));
    CommitKeepsWellFormed(PerformAll(s, ops), Log(s, ops));
  }

  // Graphs, each made from the one before by a transaction: what any sequence of
  // backing changes, appends and replacements goes through.
  ghost predicate IsHistory(graphs: seq<State>) {
    && |graphs| > 0 && WellFormed(graphs[0])
    && forall i :: 0 <= i < |graphs| - 1 ==> Transacted(graphs[i], graphs[i + 1])
  }

  lemma {:induction false} HistoryKeepsFrozen(graphs: seq<State>, k: nat)
    requires IsHistory(graphs) && k < |graphs|
    ensures WellFormed(graphs[k]) && SameFrozen(graphs[0], graphs[k])
  {
    if k > 0 {
      HistoryKeepsFrozen(graphs, k - 1);
      assert Transacted(graphs[k - 1], graphs[k - 1 + 1]);
      TransactionKeepsFrozen(graphs[k - 1], graphs[k]);
    }
  }

  // A frozen chain down to a base keeps its links through every history.
  lemma FrozenChainSurvives(graphs: seq<State>, k: nat, bs: NodeId, base: NodeId, chain: seq<EdgeId>)
    requires IsHistory(graphs) && k < |graphs|
    requires IsChain(graphs[0], bs, Some(base), chain) && AllFrozen(graphs[0], chain)
    ensures IsChain(graphs[k], bs, Some(base), chain) && AllFrozen(graphs[k], chain)
    ensures MayUnfreeze(graphs[k], bs, Some(base))
  {
    HistoryKeepsFrozen(graphs, k);
    ChainToBaseSame(graphs[0], graphs[k], bs, base, chain);
  }

  // Without a base the chain may have grown at its end; then, and only then,
  // unfreezing it meets a link that is not frozen.
  lemma OpenChainSurvivesIff(graphs: seq<State>, k: nat, bs: NodeId, chain: seq<EdgeId>)
    requires IsHistory(graphs) && k < |graphs|
    requires IsChain(graphs[0], bs, None, chain) && AllFrozen(graphs[0], chain)
    ensures MayUnfreeze(graphs[k], bs, None) <==> ChainEdge(graphs[k], Bottom(graphs[0], bs, chain)).None?
  {
    var s, t := graphs[0], graphs[k];
    HistoryKeepsFrozen(graphs, k);
    if MayUnfreeze(t, bs, None) {
      var other :| IsChain(t, bs, None, other) && AllFrozen(t, other);
      FrozenChainsAgree(s, t, bs, chain, other);
    } else if ChainEdge(t, Bottom(s, bs, chain)).None? {
      ChainToEndSame(s, t, bs, chain);
      assert false;
    }
  }

  lemma OneAttachment(s: State, op: Op)
    requires Allowed(s, op) && op.AttachOp?
    ensures Transacted(s, Perform(s, op))
  {
    var t, a := Perform(s, op), AttachChild(op.e);
    assert [op][1..] == [] && [a][1..] == [] && AllAllowed(s, [op]);
    assert PerformAll(s, [op]) == PerformAll(t, []);
    assert Log(s, [op]) == Log(t, []) + [a] == [a];
    assert CommitAll(t, [a]) == CommitAll(Commit(t, a), []);
    assert Committed(s, [op]) == t;
  }

  // Such a growth is possible: overlay 0 is frozen on 1, then 1 gets backing file 2.
  lemma OpenChainMayGrow() returns (s: State, t: State)
    ensures IsHistory([s, t]) && IsChain(s, 0, None, [0]) && AllFrozen(s, [0])
    ensures !MayUnfreeze(t, 0, None)
  {
    var node := Node(Some(Driver(false, false, true)), true, false, false, false, false, false, true);
    var cow := Role(false, false, false, true, false);
    s := State(map[0 := node, 1 := node, 2 := node], map[0 := Edge(Some(0), Some(1), cow, {}, ALL, true, false)],
               map[(0, BackingSlot) := 0], map[], map[0 := 1, 1 := 1, 2 := 1]);
    var op := AttachOp(1, Edge(Some(1), Some(2), cow, {}, ALL, false, false));
    assert WellFormed(s);
    t := Perform(s, op);
    OneAttachment(s, op);
    assert [0][1..] == [] && IsChain(s, 1, None, []);
    OpenChainSurvivesIff([s, t], 1, 0, [0]);
  }

  // -------------------------------------------------------------------- in place

  class Chains {
    var graph: State

    method IsBackingChainFrozen(bs: NodeId, base: Option<NodeId>, ghost chain: seq<EdgeId>) returns (r: bool)
      requires IsChain(graph, bs, base, chain)
      ensures r <==> AnyFrozen(graph, chain)
    {
      var i := Some(bs);
      ghost var k := 0;
      while i != base
        invariant k <= |chain| && (i.None? ==> base.None? && k == |chain|)
        invariant i.Some? ==> IsChain(graph, i.value, base, chain[k..])
        invariant forall e :: e in chain[..k] ==> e in graph.edges && !graph.edges[e].frozen
        decreases |chain| - k, if i.Some? then 1 else 0
      {
        var child := ChainEdge(graph, i.value);
        if child.Some? {
          assert chain[k..][0] == chain[k];
          if graph.edges[child.value].frozen {
            return true;
          }
          assert chain[k..][1..] == chain[k + 1..];
          assert chain[..k + 1] == chain[..k] + [chain[k]];
          i := graph.edges[child.value].bs;
          k := k + 1;
        } else {
          i := None;
        }
      }
      assert chain[..k] == chain;
      return false;
    }

    method AnyLinkToNeverFreeze(bs: NodeId, base: Option<NodeId>, ghost chain: seq<EdgeId>) returns (r: bool)
      requires IsChain(graph, bs, base, chain)
      ensures r <==> AnyNeverFreeze(graph, chain)
    {
      var i := Some(bs);
      ghost var k := 0;
      while i != base
        invariant k <= |chain| && (i.None? ==> base.None? && k == |chain|)
        invariant i.Some? ==> IsChain(graph, i.value, base, chain[k..])
        invariant forall e :: e in chain[..k] ==> !LeadsToNeverFreeze(graph, e)
        decreases |chain| - k, if i.Some? then 1 else 0
      {
        var child := ChainEdge(graph, i.value);
        if child.Some? {
          assert chain[k..][0] == chain[k];
          if LeadsToNeverFreeze(graph, child.value) {
            return true;
          }
          assert chain[k..][1..] == chain[k + 1..];
          assert chain[..k + 1] == chain[..k] + [chain[k]];
          i := graph.edges[child.value].bs;
          k := k + 1;
        } else {
          i := None;
        }
      }
      assert chain[..k] == chain;
      return false;
    }

    // All or nothing; a failed call changes no link.
    method FreezeBackingChain(bs: NodeId, base: Option<NodeId>, ghost chain: seq<EdgeId>) returns (ok: bool)
      requires IsChain(graph, bs, base, chain)
      modifies this
      ensures ok <==> !AnyFrozen(old(graph), chain) && !AnyNeverFreeze(old(graph), chain)
      ensures graph == if ok then WithFrozen(old(graph), Elems(chain), true) else old(graph)
      ensures IsChain(graph, bs, base, chain) && (ok ==> AllFrozen(graph, chain))
    {
      var frozen := IsBackingChainFrozen(bs, base, chain);
      if frozen {
        return false;
      }
      var never := AnyLinkToNeverFreeze(bs, base, chain);
      if never {
        return false;
      }
      ChainEdgesExist(graph, bs, base, chain);
      SetChainFrozen(bs, base, true, chain);
      return true;
    }

    // The caller must have made sure that all links are frozen.
    method UnfreezeBackingChain(bs: NodeId, base: Option<NodeId>, ghost chain: seq<EdgeId>)
      requires IsChain(graph, bs, base, chain) && AllFrozen(graph, chain)
      modifies this
      ensures graph == WithFrozen(old(graph), Elems(chain), false)
    {
      SetChainFrozen(bs, base, false, chain);
    }

    // The loop that both calls share; when unfreezing, every link must be frozen.
    method SetChainFrozen(bs: NodeId, base: Option<NodeId>, frozen: bool, ghost chain: seq<EdgeId>)
      requires IsChain(graph, bs, base, chain) && (!frozen ==> AllFrozen(graph, chain))
      modifies this
      ensures graph == WithFrozen(old(graph), Elems(chain), frozen) && IsChain(graph, bs, base, chain)
    {
      var i := Some(bs);
      ghost var k, start := 0, graph;
      NoneFrozen(graph, chain, frozen);
      while i != base
        invariant k <= |chain| && (i.None? ==> base.None? && k == |chain|)
        invariant graph == WithFrozen(start, Elems(chain[..k]), frozen)
        invariant i.Some? ==> IsChain(start, i.value, base, chain[k..])
        decreases |chain| - k, if i.Some? then 1 else 0
      {
        i := SetLinkFrozen(i.value, frozen, start, bs, base, chain, k);
        k := if k < |chain| then k + 1 else k;
      }
      assert chain[..k] == chain;
      FreezingKeepsChain(start, Elems(chain), frozen, bs, base, chain);
    }

    // One round of the loop; the result is the next node of the chain.
    method SetLinkFrozen(i: NodeId, frozen: bool, ghost start: State, ghost bs: NodeId, ghost base: Option<NodeId>,
                         ghost chain: seq<EdgeId>, ghost k: nat) returns (next: Option<NodeId>)
      requires IsChain(start, bs, base, chain) && k <= |chain| && graph == WithFrozen(start, Elems(chain[..k]), frozen)
      requires IsChain(start, i, base, chain[k..]) && base != Some(i) && (!frozen ==> AllFrozen(start, chain))
      modifies this
      ensures k == |chain| ==> next.None? && base.None? && graph == old(graph)
      ensures k < |chain| ==>
        next.Some? && IsChain(start, next.value, base, chain[k + 1..]) && graph == WithFrozen(start, Elems(chain[..k + 1]), frozen)
    {
      ChainStep(start, graph, bs, base, chain, k, i, frozen);
      var child := ChainEdge(graph, i);
      if child.None? {
        return None;
      }
      assert !frozen ==> graph.edges[child.value].frozen;
      next := graph.edges[child.value].bs;
      graph := WithFlag(graph, child.value, frozen);
    }
  }

  function WithFlag(s: State, e: EdgeId, frozen: bool): State
    requires e in s.edges
  {
    s.(edges := s.edges[e := s.edges[e].(frozen := frozen)])
  }

  predicate LeadsToNeverFreeze(s: State, e: EdgeId) {
    e in s.edges && s.edges[e].bs.Some? && s.edges[e].bs.value in s.nodes && s.nodes[s.edges[e].bs.value].neverFreeze
  }

  lemma NotYetReached(s: State, bs: NodeId, base: Option<NodeId>, chain: seq<EdgeId>, k: nat)
    requires IsChain(s, bs, base, chain) && k < |chain|
    ensures chain[k] !in Elems(chain[..k])
  {
    forall i | 0 <= i < k
      ensures chain[i] != chain[k]
    {
      ChainHasNoDuplicates(s, bs, base, chain, i, k);
    }
  }

  // What the loop meets at the k-th node of the chain.
  lemma ChainStep(s: State, g: State, bs: NodeId, base: Option<NodeId>, chain: seq<EdgeId>, k: nat, i: NodeId, frozen: bool)
    requires IsChain(s, bs, base, chain) && k <= |chain| && g == WithFrozen(s, Elems(chain[..k]), frozen)
    requires IsChain(s, i, base, chain[k..]) && base != Some(i) && (!frozen ==> AllFrozen(s, chain))
    ensures k == |chain| ==> ChainEdge(g, i).None? && base.None?
    ensures k < |chain| ==>
      && ChainEdge(g, i) == Some(chain[k]) && chain[k] in g.edges && chain[k] in s.edges
      && g.edges[chain[k]].bs == s.edges[chain[k]].bs && s.edges[chain[k]].bs.Some?
      && IsChain(s, s.edges[chain[k]].bs.value, base, chain[k + 1..])
      && (!frozen ==> g.edges[chain[k]].frozen)
      && WithFlag(g, chain[k], frozen) == WithFrozen(s, Elems(chain[..k + 1]), frozen)
  {
    assert ChainEdge(g, i) == ChainEdge(s, i);
    if k < |chain| {
      assert chain[k..][0] == chain[k] && chain[k..][1..] == chain[k + 1..];
      NotYetReached(s, bs, base, chain, k);
      OneMoreFrozen(s, chain, k, frozen);
    }
  }

  lemma NoneFrozen(s: State, chain: seq<EdgeId>, frozen: bool)
    ensures WithFrozen(s, Elems(chain[..0]), frozen) == s
  {
  }

  lemma OneMoreFrozen(s: State, chain: seq<EdgeId>, k: nat, frozen: bool)
    requires k < |chain| && chain[k] in s.edges
    ensures WithFlag(WithFrozen(s, Elems(chain[..k]), frozen), chain[k], frozen) == WithFrozen(s, Elems(chain[..k + 1]), frozen)
  {
  }

  // Unfreezing a chain right after freezing it restores the graph.
  lemma UnfreezeUndoesFreeze(s: State, chain: seq<EdgeId>)
    requires !AnyFrozen(s, chain)
    ensures WithFrozen(WithFrozen(s, Elems(chain), true), Elems(chain), false) == s
  {
  }
}
