/**
 Moving connected nodes, jobs and backends to another AioContext
 (xemu/block.c:1230-1237, 3131-3164, 7575-7745; xemu/blockjob.c:147-171;
 xemu/block/block-backend.c:2441-2470).
 */
module AioContexts {

  import opened Wrappers
  import opened BlockGraph

  type Context = nat

  // What can sit at the upper end of an edge; nodes sit at the lower end too.
  datatype Item = NodeItem(n: NodeId) | JobItem(job: nat) | BackendItem(backend: nat) | OtherItem(id: nat)

  datatype World = World(
    graph: State,
    owners: map<EdgeId, Item>,     // the owners of edges that have no parent node
    contexts: map<Item, Context>,
    pinned: set<Item>)             // backends that refuse to change their context

  // --------------------------------------------------------------- edges and ends

  predicate Attached(w: World, e: EdgeId) {
    e in w.graph.edges && w.graph.edges[e].bs.Some?
  }

  function Upper(w: World, e: EdgeId): Item
    requires Attached(w, e)
  {
    if w.graph.edges[e].parent.Some? then NodeItem(w.graph.edges[e].parent.value)
    else if e in w.owners then w.owners[e]
    else OtherItem(0)
  }

  function Lower(w: World, e: EdgeId): Item
    requires Attached(w, e)
  {
    NodeItem(w.graph.edges[e].bs.value)
  }

  // Both ends of an edge have a context, and a backend has one root edge.
  ghost predicate Valid(w: World) {
    && (forall e :: Attached(w, e) ==> Upper(w, e) in w.contexts && Lower(w, e) in w.contexts)
    && (forall e :: e in w.owners ==> !w.owners[e].NodeItem?)
    && (forall e, f :: Attached(w, e) && Attached(w, f) && Upper(w, e).BackendItem? && Upper(w, e) == Upper(w, f) ==> e == f)
  }

  function OwnedEdges(w: World, i: Item): set<EdgeId> {
    set e | e in w.graph.edges && Attached(w, e) && Upper(w, e) == i
  }

  predicate Movable(w: World, i: Item) {
    !i.OtherItem? && !(i.BackendItem? && i in w.pinned)
  }

  // Nodes that already are in the new context are not looked at further.
  predicate Expands(w: World, ctx: Context, i: Item) {
    !(i.NodeItem? && i in w.contexts && w.contexts[i] == ctx)
  }

  // ---------------------------------------------------- what is connected to an item

  ghost predicate ClosedAt(w: World, ctx: Context, part: set<Item>, e: EdgeId)
    requires Attached(w, e)
  {
    && (Upper(w, e) in part && Expands(w, ctx, Upper(w, e)) ==> Lower(w, e) in part)
    && (Lower(w, e) in part && Expands(w, ctx, Lower(w, e)) ==> Upper(w, e) in part)
  }

  ghost predicate Closed(w: World, ctx: Context, ignored: set<EdgeId>, part: set<Item>) {
    forall e :: Attached(w, e) && e !in ignored ==> ClosedAt(w, ctx, part, e)
  }

  // The items joined to start by edges that are not ignored.
  ghost function Component(w: World, ctx: Context, ignored: set<EdgeId>, start: Item): set<Item> {
    set i | i in w.contexts.Keys + {start} &&
            forall part :: Closed(w, ctx, ignored, part) && start in part ==> i in part
  }

  lemma ComponentIsClosed(w: World, ctx: Context, ignored: set<EdgeId>, start: Item)
    requires Valid(w)
    ensures Closed(w, ctx, ignored, Component(w, ctx, ignored, start))
    ensures start in Component(w, ctx, ignored, start)
  {
  }

  lemma ComponentIsLeast(w: World, ctx: Context, ignored: set<EdgeId>, start: Item, part: set<Item>)
    requires Closed(w, ctx, ignored, part) && start in part
    ensures Component(w, ctx, ignored, start) <= part
  {
  }

  // ------------------------------------------------------------- recursion phase

  ghost predicate Covered(w: World, ctx: Context, tran: seq<Item>, open: set<Item>, i: Item) {
    i in open || i in tran || !Expands(w, ctx, i)
  }

  // Visited edges have both ends collected or under way; all edges of a collected
  // item are visited; and nothing outside the bound is collected.
  ghost predicate Inv(w: World, ctx: Context, ignored: set<EdgeId>, visited: set<EdgeId>, tran: seq<Item>,
                      open: set<Item>, bound: set<Item>)
  {
    && ignored <= visited
    && (forall e :: Attached(w, e) && e in visited && e !in ignored ==>
          Covered(w, ctx, tran, open, Upper(w, e)) && Covered(w, ctx, tran, open, Lower(w, e)))
    && (forall e :: Attached(w, e) && (Upper(w, e) in tran || Lower(w, e) in tran) ==> e in visited)
    && (forall i :: i in tran ==> i in bound && Movable(w, i) && Expands(w, ctx, i))
  }

  // What a call of the recursion adds.
  ghost predicate Grown(visited: set<EdgeId>, tran: seq<Item>, visited': set<EdgeId>, tran': seq<Item>) {
    visited <= visited' && forall i :: i in tran ==> i in tran'
  }

  ghost predicate AllMovable(w: World, bound: set<Item>) {
    forall i :: i in bound ==> Movable(w, i)
  }

  // bdrv_change_aio_context.
  method ChangeNode(w: World, ctx: Context, n: NodeId, seen: set<EdgeId>, list: seq<Item>,
                    ghost ignored: set<EdgeId>, ghost open: set<Item>, ghost bound: set<Item>)
    returns (ok: bool, visited: set<EdgeId>, tran: seq<Item>)
    requires Valid(w) && NodeItem(n) in w.contexts && NodeItem(n) in bound && Closed(w, ctx, ignored, bound)
    requires Inv(w, ctx, ignored, seen, list, open + {NodeItem(n)}, bound)
    ensures Grown(seen, list, visited, tran)
    ensures ok ==> Inv(w, ctx, ignored, visited, tran, open, bound) && Covered(w, ctx, tran, {}, NodeItem(n))
    ensures !ok ==> !AllMovable(w, bound)
    decreases w.graph.edges.Keys - seen, 2
  {
    visited, tran := seen, list;
    if w.contexts[NodeItem(n)] == ctx {
      return true, visited, tran;
    }
    ghost var open' := open + {NodeItem(n)};
    ok, visited, tran := ChangeParents(w, ctx, n, visited, tran, ignored, open', bound);
    if !ok {
      return;
    }
    ok, visited, tran := ChangeChildren(w, ctx, NodeItem(n), Children(w.graph, n), visited, tran, ignored, open', bound);
    if !ok {
      return;
    }
    AddItem(w, ctx, ignored, visited, tran, open, bound, NodeItem(n));
    tran := tran + [NodeItem(n)];
  }

  lemma AddItem(w: World, ctx: Context, ignored: set<EdgeId>, visited: set<EdgeId>, tran: seq<Item>,
                open: set<Item>, bound: set<Item>, i: Item)
    requires Inv(w, ctx, ignored, visited, tran, open + {i}, bound)
    requires i in bound && Movable(w, i) && Expands(w, ctx, i)
    requires forall e :: Attached(w, e) && (Upper(w, e) == i || Lower(w, e) == i) ==> e in visited
    ensures Inv(w, ctx, ignored, visited, tran + [i], open, bound)
  {
  }

  method ChangeParents(w: World, ctx: Context, n: NodeId, seen: set<EdgeId>, list: seq<Item>,
                       ghost ignored: set<EdgeId>, ghost open: set<Item>, ghost bound: set<Item>)
    returns (ok: bool, visited: set<EdgeId>, tran: seq<Item>)
    requires Valid(w) && NodeItem(n) in bound && Closed(w, ctx, ignored, bound)
    requires NodeItem(n) in open && Expands(w, ctx, NodeItem(n))
    requires Inv(w, ctx, ignored, seen, list, open, bound)
    ensures Grown(seen, list, visited, tran)
    ensures ok ==> Inv(w, ctx, ignored, visited, tran, open, bound) && Parents(w.graph, n) <= visited
    ensures !ok ==> !AllMovable(w, bound)
    decreases w.graph.edges.Keys - seen, 1
  {
    ok, visited, tran := true, seen, list;
    var todo := Parents(w.graph, n);
    while todo != {}
      invariant todo <= Parents(w.graph, n) && Parents(w.graph, n) - todo <= visited
      invariant Grown(seen, list, visited, tran)
      invariant Inv(w, ctx, ignored, visited, tran, open, bound)
      decreases todo
    {
      var e :| e in todo;
      todo := todo - {e};
      ok, visited, tran := ParentChange(w, ctx, e, visited, tran, ignored, open, bound);
      if !ok {
        return;
      }
    }
    return true, visited, tran;
  }

  method ChangeChildren(w: World, ctx: Context, owner: Item, edges: set<EdgeId>, seen: set<EdgeId>, list: seq<Item>,
                        ghost ignored: set<EdgeId>, ghost open: set<Item>, ghost bound: set<Item>)
    returns (ok: bool, visited: set<EdgeId>, tran: seq<Item>)
    requires Valid(w) && owner in bound && Closed(w, ctx, ignored, bound)
    requires owner in open && Expands(w, ctx, owner)
    requires forall e :: e in edges ==> Attached(w, e) && Upper(w, e) == owner
    requires Inv(w, ctx, ignored, seen, list, open, bound)
    ensures Grown(seen, list, visited, tran)
    ensures ok ==> Inv(w, ctx, ignored, visited, tran, open, bound) && edges <= visited
    ensures !ok ==> !AllMovable(w, bound)
    decreases w.graph.edges.Keys - seen, 1
  {
    ok, visited, tran := true, seen, list;
    var todo := edges;
    while todo != {}
      invariant todo <= edges && edges - todo <= visited
      invariant Grown(seen, list, visited, tran)
      invariant Inv(w, ctx, ignored, visited, tran, open, bound)
      decreases todo
    {
      var e :| e in todo;
      todo := todo - {e};
      ok, visited, tran := ChildChange(w, ctx, e, visited, tran, ignored, open, bound);
      if !ok {
        return;
      }
    }
    return true, visited, tran;
  }

  // bdrv_parent_change_aio_context.
  method ParentChange(w: World, ctx: Context, e: EdgeId, seen: set<EdgeId>, list: seq<Item>,
                      ghost ignored: set<EdgeId>, ghost open: set<Item>, ghost bound: set<Item>)
    returns (ok: bool, visited: set<EdgeId>, tran: seq<Item>)
    requires Valid(w) && Attached(w, e) && Closed(w, ctx, ignored, bound)
    requires Lower(w, e) in bound && Lower(w, e) in open && Expands(w, ctx, Lower(w, e))
    requires Inv(w, ctx, ignored, seen, list, open, bound)
    ensures Grown(seen + {e}, list, visited, tran)
    ensures ok ==> Inv(w, ctx, ignored, visited, tran, open, bound)
    ensures !ok ==> !AllMovable(w, bound)
    decreases w.graph.edges.Keys - seen, 0
  {
    if e in seen {
      return true, seen, list;
    }
    assert ClosedAt(w, ctx, bound, e);
    visited := seen + {e};
    ok, visited, tran := ChangeOwner(w, ctx, Upper(w, e), visited, list, ignored, open, bound);
  }

  // bdrv_child_change_aio_context.
  method ChildChange(w: World, ctx: Context, e: EdgeId, seen: set<EdgeId>, list: seq<Item>,
                     ghost ignored: set<EdgeId>, ghost open: set<Item>, ghost bound: set<Item>)
    returns (ok: bool, visited: set<EdgeId>, tran: seq<Item>)
    requires Valid(w) && Attached(w, e) && Closed(w, ctx, ignored, bound)
    requires Upper(w, e) in bound && Upper(w, e) in open && Expands(w, ctx, Upper(w, e))
    requires Inv(w, ctx, ignored, seen, list, open, bound)
    ensures Grown(seen + {e}, list, visited, tran)
    ensures ok ==> Inv(w, ctx, ignored, visited, tran, open, bound)
    ensures !ok ==> !AllMovable(w, bound)
    decreases w.graph.edges.Keys - seen, 0
  {
    if e in seen {
      return true, seen, list;
    }
    assert ClosedAt(w, ctx, bound, e);
    visited := seen + {e};
    ok, visited, tran := ChangeNode(w, ctx, Lower(w, e).n, visited, list, ignored, open, bound);
  }

  // The change_aio_ctx callback of an edge's class.
  method ChangeOwner(w: World, ctx: Context, owner: Item, seen: set<EdgeId>, list: seq<Item>,
                     ghost ignored: set<EdgeId>, ghost open: set<Item>, ghost bound: set<Item>)
    returns (ok: bool, visited: set<EdgeId>, tran: seq<Item>)
    requires Valid(w) && owner in w.contexts && owner in bound && Closed(w, ctx, ignored, bound)
    requires Inv(w, ctx, ignored, seen, list, open + {owner}, bound)
    requires owner.BackendItem? ==> forall e :: Attached(w, e) && Upper(w, e) == owner ==> e in seen
    ensures Grown(seen, list, visited, tran)
    ensures ok ==> Inv(w, ctx, ignored, visited, tran, open, bound) && Covered(w, ctx, tran, {}, owner)
    ensures !ok ==> !AllMovable(w, bound)
    decreases w.graph.edges.Keys - seen, 3
  {
    match owner
    case NodeItem(n) =>
      ok, visited, tran := ChangeNode(w, ctx, n, seen, list, ignored, open, bound);
    case JobItem(_) =>
      ok, visited, tran := ChangeChildren(w, ctx, owner, OwnedEdges(w, owner), seen, list, ignored, open + {owner}, bound);
      if ok {
        AddItem(w, ctx, ignored, visited, tran, open, bound, owner);
        tran := tran + [owner];
      }
    case BackendItem(_) =>
      ok, visited, tran := owner !in w.pinned, seen, list;
      if ok {
        AddItem(w, ctx, ignored, visited, tran, open, bound, owner);
        tran := tran + [owner];
      }
    case OtherItem(_) =>
      ok, visited, tran := false, seen, list;
  }

  // ---------------------------------------------------------------- linear phase

  function WithContext(w: World, ctx: Context, items: set<Item>): World {
    w.(contexts := map i | i in w.contexts :: if i in items then ctx else w.contexts[i])
  }

  // The state after a successful change: every connected item has moved.
  ghost function Moved(w: World, ctx: Context, ignored: set<EdgeId>, start: Item): World {
    WithContext(w, ctx, Component(w, ctx, ignored, start))
  }

  // The collected items are the component, up to nodes that need not move.
  lemma CollectedIsComponent(w: World, ctx: Context, ignored: set<EdgeId>, visited: set<EdgeId>, tran: seq<Item>, start: Item)
    requires Valid(w) && start in w.contexts
    requires Inv(w, ctx, ignored, visited, tran, {}, Component(w, ctx, ignored, start))
    requires Covered(w, ctx, tran, {}, start)
    ensures AllMovable(w, Component(w, ctx, ignored, start))
    ensures WithContext(w, ctx, set i | i in tran) == Moved(w, ctx, ignored, start)
  {
    var collected := set i | i in tran;
    var settled := set i | i in w.contexts && !Expands(w, ctx, i);
    assert Closed(w, ctx, ignored, collected + settled);
    ComponentIsLeast(w, ctx, ignored, start, collected + settled);
  }

  class Contexts {
    var world: World

    // bdrv_try_change_aio_context_locked.
    method TryChange(n: NodeId, ctx: Context, ignoreChild: Option<EdgeId>) returns (ok: bool)
      requires Valid(world) && NodeItem(n) in world.contexts
      modifies this
      ensures var ignored := if ignoreChild.Some? then {ignoreChild.value} else {};
        && (ok <==> AllMovable(old(world), Component(old(world), ctx, ignored, NodeItem(n))))
        && world == if ok then Moved(old(world), ctx, ignored, NodeItem(n)) else old(world)
    {
      var ignored := if ignoreChild.Some? then {ignoreChild.value} else {};
      ghost var bound := Component(world, ctx, ignored, NodeItem(n));
      ComponentIsClosed(world, ctx, ignored, NodeItem(n));
      var visited, tran;
      ok, visited, tran := ChangeNode(world, ctx, n, ignored, [], ignored, {}, bound);
      if ok {
        CollectedIsComponent(world, ctx, ignored, visited, tran, NodeItem(n));
        Commit(ctx, tran);
      }
    }

    // tran_commit: run the collected changes one by one.
    method Commit(ctx: Context, tran: seq<Item>)
      modifies this
      ensures world == WithContext(old(world), ctx, set i | i in tran)
    {
      assert world == WithContext(world, ctx, {});
      for k := 0 to |tran|
        invariant world == WithContext(old(world), ctx, set i | i in tran[..k])
      {
        assert tran[..k + 1] == tran[..k] + [tran[k]];
        world := WithContext(world, ctx, {tran[k]});
      }
      assert tran[..|tran|] == tran;
    }

    // The part of bdrv_attach_child_common that brings the new parent and the
    // new child together; the edge itself is not attached yet.
    method JoinContexts(owner: Item, n: NodeId) returns (ok: bool)
      requires Valid(world) && Consistent(world, {}) && owner in world.contexts && NodeItem(n) in world.contexts
      requires owner.BackendItem? ==> forall e :: Attached(world, e) ==> Upper(world, e) != owner
      modifies this
      ensures Valid(world) && Consistent(world, {}) && world == old(world).(contexts := world.contexts)
      ensures world.contexts.Keys == old(world).contexts.Keys
      ensures ok ==> world.contexts[owner] == world.contexts[NodeItem(n)]
      ensures !ok ==> world == old(world)
      ensures ok <==> MayJoin(old(world), owner, n)
      ensures ok ==> Joined(old(world), world, owner, n)
    {
      var childCtx := world.contexts[NodeItem(n)];
      var parentCtx := world.contexts[owner];
      if childCtx == parentCtx {
        return true;
      }
      ChildMoves(world, owner, n);
      ghost var bound := Component(world, childCtx, {}, owner);
      ComponentIsClosed(world, childCtx, {}, owner);
      ok := TryChange(n, parentCtx, None);
      if !ok && !owner.OtherItem? {
        OwnerMoves(world, owner, n);
        var visited, tran;
        ok, visited, tran := ChangeOwner(world, childCtx, owner, {}, [], {}, {}, bound);
        if ok {
          CollectedIsComponent(world, childCtx, {}, visited, tran, owner);
          Commit(childCtx, tran);
        }
      }
    }

    // The part of bdrv_attach_child_common_abort that moves both ends back; the edge
    // is detached already.  Both moves are asserted to succeed.
    method SeparateContexts(owner: Item, n: NodeId, oldParentCtx: Context, oldChildCtx: Context, ghost before: World)
      requires Valid(before) && Consistent(before, {}) && owner in before.contexts && NodeItem(n) in before.contexts
      requires oldParentCtx == before.contexts[owner] && oldChildCtx == before.contexts[NodeItem(n)]
      requires Joined(before, world, owner, n)
      requires owner.BackendItem? ==> forall e :: Attached(before, e) ==> Upper(before, e) != owner
      modifies this
      ensures world == before
    {
      WayBack(before, world, owner, n);
      if world.contexts[NodeItem(n)] != oldChildCtx {
        var ok := TryChange(n, oldChildCtx, None);
        assert ok;
      }
      if world.contexts[owner] != oldParentCtx {
        ghost var bound := Component(world, oldParentCtx, {}, owner);
        ComponentIsClosed(world, oldParentCtx, {}, owner);
        var ok, visited, tran := ChangeOwner(world, oldParentCtx, owner, {}, [], {}, {}, bound);
        assert ok;
        CollectedIsComponent(world, oldParentCtx, {}, visited, tran, owner);
        Commit(oldParentCtx, tran);
      }
    }
  }

  // Either side may follow the other.
  ghost predicate MayJoin(w: World, owner: Item, n: NodeId)
    requires owner in w.contexts && NodeItem(n) in w.contexts
  {
    || w.contexts[owner] == w.contexts[NodeItem(n)]
    || AllMovable(w, Component(w, w.contexts[owner], {}, NodeItem(n)))
    || AllMovable(w, Component(w, w.contexts[NodeItem(n)], {}, owner))
  }

  // ------------------------------------------------- both ends share one context

  ghost predicate Consistent(w: World, ignored: set<EdgeId>) {
    forall e :: Attached(w, e) && e !in ignored ==> SameAt(w, e)
  }

  ghost predicate SameAt(w: World, e: EdgeId)
    requires Attached(w, e)
  {
    Upper(w, e) in w.contexts && Lower(w, e) in w.contexts && w.contexts[Upper(w, e)] == w.contexts[Lower(w, e)]
  }

  // Connected items are in one context to begin with.
  lemma ComponentSharesContext(w: World, ctx: Context, ignored: set<EdgeId>, start: Item, i: Item)
    requires Valid(w) && Consistent(w, ignored) && start in w.contexts
    requires i in Component(w, ctx, ignored, start)
    ensures i in w.contexts && w.contexts[i] == w.contexts[start]
  {
    var part := set j | j in w.contexts && w.contexts[j] == w.contexts[start];
    assert Closed(w, ctx, ignored, part) by {
      forall e | Attached(w, e) && e !in ignored
        ensures ClosedAt(w, ctx, part, e)
      {
        assert SameAt(w, e);
      }
    }
    ComponentIsLeast(w, ctx, ignored, start, part);
  }

  // Moving a component keeps the rule for every edge that is not ignored.
  lemma MoveKeepsConsistent(w: World, ctx: Context, ignored: set<EdgeId>, start: Item)
    requires Valid(w) && Consistent(w, ignored) && start in w.contexts
    ensures Valid(Moved(w, ctx, ignored, start)) && Consistent(Moved(w, ctx, ignored, start), ignored)
  {
    var t := Moved(w, ctx, ignored, start);
    ComponentIsClosed(w, ctx, ignored, start);
    forall e | Attached(t, e)
      ensures Upper(t, e) == Upper(w, e) && Lower(t, e) == Lower(w, e)
      ensures e !in ignored ==> SameAt(t, e)
    {
      if e !in ignored {
        assert Attached(w, e) && SameAt(w, e) && ClosedAt(w, ctx, Component(w, ctx, ignored, start), e);
      }
    }
  }

  // An item in another context is not in the component.
  lemma ChildMoves(w: World, owner: Item, n: NodeId)
    requires Valid(w) && Consistent(w, {}) && owner in w.contexts && NodeItem(n) in w.contexts
    requires w.contexts[owner] != w.contexts[NodeItem(n)]
    ensures var t := Moved(w, w.contexts[owner], {}, NodeItem(n));
      Valid(t) && Consistent(t, {}) && t.contexts[owner] == t.contexts[NodeItem(n)] == w.contexts[owner]
  {
    MoveKeepsConsistent(w, w.contexts[owner], {}, NodeItem(n));
    ComponentIsClosed(w, w.contexts[owner], {}, NodeItem(n));
  }

  lemma OwnerMoves(w: World, owner: Item, n: NodeId)
    requires Valid(w) && Consistent(w, {}) && owner in w.contexts && NodeItem(n) in w.contexts
    requires w.contexts[owner] != w.contexts[NodeItem(n)]
    ensures var t := Moved(w, w.contexts[NodeItem(n)], {}, owner);
      Valid(t) && Consistent(t, {}) && t.contexts[owner] == t.contexts[NodeItem(n)] == w.contexts[NodeItem(n)]
  {
    MoveKeepsConsistent(w, w.contexts[NodeItem(n)], {}, owner);
    ComponentIsClosed(w, w.contexts[NodeItem(n)], {}, owner);
  }

  // ------------------------------------------------------------------- the way back

  // How a successful join has changed the contexts: the child's side follows the
  // parent if it can, and only otherwise the parent's side follows the child.
  ghost predicate Joined(w: World, t: World, owner: Item, n: NodeId)
    requires owner in w.contexts && NodeItem(n) in w.contexts
  {
    var parentCtx, childCtx := w.contexts[owner], w.contexts[NodeItem(n)];
    if parentCtx == childCtx then t == w
    else if AllMovable(w, Component(w, parentCtx, {}, NodeItem(n))) then t == Moved(w, parentCtx, {}, NodeItem(n))
    else AllMovable(w, Component(w, childCtx, {}, owner)) && t == Moved(w, childCtx, {}, owner)
  }

  // The side that does not move keeps its context, with everything connected to it.
  lemma OtherSideStays(w: World, ctx: Context, moving: Item, staying: Item, i: Item)
    requires Valid(w) && Consistent(w, {}) && moving in w.contexts && staying in w.contexts
    requires w.contexts[moving] != w.contexts[staying] && i in Component(w, w.contexts[moving], {}, staying)
    ensures i in w.contexts && Moved(w, ctx, {}, moving).contexts[i] == w.contexts[i] == w.contexts[staying]
  {
    ComponentSharesContext(w, w.contexts[moving], {}, staying, i);
    if i in Component(w, ctx, {}, moving) {
      ComponentSharesContext(w, ctx, {}, moving, i);
    }
  }

  // Where every item expands, closedness does not depend on the contexts.
  lemma ClosedAcross(w: World, m: World, ctx: Context, ctx': Context, part: set<Item>)
    requires m == w.(contexts := m.contexts) && Closed(w, ctx, {}, part)
    requires forall i :: i in part ==> Expands(w, ctx, i)
    ensures Closed(m, ctx', {}, part)
  {
    forall e | Attached(m, e)
      ensures ClosedAt(m, ctx', part, e)
    {
      assert ClosedAt(w, ctx, part, e);
    }
  }

  // The items of a component move from one context to another.
  lemma MovedContexts(w: World, ctx: Context, start: Item, i: Item)
    requires Valid(w) && Consistent(w, {}) && start in w.contexts && w.contexts[start] != ctx
    requires i in Component(w, ctx, {}, start)
    ensures Expands(w, ctx, i) && Expands(Moved(w, ctx, {}, start), w.contexts[start], i)
  {
    ComponentSharesContext(w, ctx, {}, start, i);
  }

  // A component that has moved is the same component seen from its new context.
  lemma MovedComponent(w: World, ctx: Context, start: Item)
    requires Valid(w) && Consistent(w, {}) && start in w.contexts && w.contexts[start] != ctx
    ensures Component(Moved(w, ctx, {}, start), w.contexts[start], {}, start) == Component(w, ctx, {}, start)
  {
    var m, ctx' := Moved(w, ctx, {}, start), w.contexts[start];
    var c, c' := Component(w, ctx, {}, start), Component(m, ctx', {}, start);
    forall i | i in c
      ensures Expands(w, ctx, i) && Expands(m, ctx', i)
    {
      MovedContexts(w, ctx, start, i);
    }
    ComponentIsClosed(w, ctx, {}, start);
    ClosedAcross(w, m, ctx, ctx', c);
    ComponentIsLeast(m, ctx', {}, start, c);
    MoveKeepsConsistent(w, ctx, {}, start);
    ComponentIsClosed(m, ctx', {}, start);
    ClosedAcross(m, w, ctx', ctx, c');
    ComponentIsLeast(w, ctx, {}, start, c');
  }

  // So it can move back whenever it could move, and then nothing has changed.
  lemma MovesBack(w: World, ctx: Context, start: Item)
    requires Valid(w) && Consistent(w, {}) && start in w.contexts && w.contexts[start] != ctx
    requires AllMovable(w, Component(w, ctx, {}, start))
    ensures var m := Moved(w, ctx, {}, start);
      && AllMovable(m, Component(m, w.contexts[start], {}, start))
      && Moved(m, w.contexts[start], {}, start) == w
  {
    var m := Moved(w, ctx, {}, start);
    MovedComponent(w, ctx, start);
    forall i | i in Component(w, ctx, {}, start)
      ensures i in w.contexts && w.contexts[i] == w.contexts[start]
    {
      ComponentSharesContext(w, ctx, {}, start, i);
    }
    assert Moved(m, w.contexts[start], {}, start).contexts == w.contexts;
  }

  // Exactly one side has moved, if any, and it can go back.
  lemma WayBack(w: World, t: World, owner: Item, n: NodeId)
    requires Valid(w) && Consistent(w, {}) && owner in w.contexts && NodeItem(n) in w.contexts && Joined(w, t, owner, n)
    ensures Valid(t) && t.contexts.Keys == w.contexts.Keys && t.graph == w.graph && t.owners == w.owners
    ensures t.contexts[NodeItem(n)] != w.contexts[NodeItem(n)] ==>
      && AllMovable(t, Component(t, w.contexts[NodeItem(n)], {}, NodeItem(n)))
      && Moved(t, w.contexts[NodeItem(n)], {}, NodeItem(n)) == w
    ensures t.contexts[NodeItem(n)] == w.contexts[NodeItem(n)] && t.contexts[owner] != w.contexts[owner] ==>
      && AllMovable(t, Component(t, w.contexts[owner], {}, owner))
      && Moved(t, w.contexts[owner], {}, owner) == w
    ensures t.contexts[NodeItem(n)] == w.contexts[NodeItem(n)] && t.contexts[owner] == w.contexts[owner] ==> t == w
  {
    var parentCtx, childCtx := w.contexts[owner], w.contexts[NodeItem(n)];
    if parentCtx != childCtx {
      ChildMoves(w, owner, n);
      OwnerMoves(w, owner, n);
      if AllMovable(w, Component(w, parentCtx, {}, NodeItem(n))) {
        MovesBack(w, parentCtx, NodeItem(n));
      } else {
        MovesBack(w, childCtx, owner);
      }
    }
  }
}
