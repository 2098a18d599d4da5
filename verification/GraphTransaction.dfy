/**
 Changing the graph in a transaction (xemu/block.c:2337-2374, 2436-2512,
 3033-3195, 3364-3393, 5326-5356; util/transactions.c).  Every change pushes an
 action; aborting runs the undo of the actions, last one first.
 */
module GraphTransaction {

  import opened Wrappers
  import opened BlockGraph

  datatype Op =
    | SetPermOp(e: EdgeId, perm: Perms, shared: Perms)
    | ReplaceOp(e: EdgeId, bs: Option<NodeId>)
    | AttachOp(e: EdgeId, edge: Edge)
    | RemoveOp(e: EdgeId)
    | InheritOp(n: NodeId, from: Option<NodeId>)

  datatype Action =
    | SetPerm(e: EdgeId, oldPerm: Perms, oldShared: Perms)
    | ReplaceChild(e: EdgeId, oldBs: Option<NodeId>)
    | AttachChild(e: EdgeId)
    | RemoveChild(e: EdgeId)
    | SetInheritsFrom(n: NodeId, oldFrom: Option<NodeId>)

  // What the code asserts or relies on before a change.
  ghost predicate Allowed(s: State, op: Op) {
    match op
    case SetPermOp(e, _, _) => e in s.edges
    case ReplaceOp(e, bs) =>
      // Only a removed edge has no target, and it awaits its end.
      && e in s.edges && !s.edges[e].frozen && s.edges[e].bs.Some? && s.edges[e].bs != bs
      && (bs.Some? ==> bs.value in s.nodes && SlotFree(s, e))
    case AttachOp(e, edge) =>
      && e !in s.edges && !edge.frozen && edge.bs.Some? && edge.bs.value in s.nodes
      && (edge.parent.Some? ==>
            && edge.parent.value in s.nodes
            && s.nodes[edge.parent.value].drv.Some?
            && RoleFits(s.nodes[edge.parent.value].drv.value, edge.role))
      && SlotFree(s.(edges := s.edges[e := edge]), e)
    case RemoveOp(e) => e in s.edges && !s.edges[e].frozen
    case InheritOp(n, _) => n in s.nodes
  }

  function WithPerm(s: State, e: EdgeId, perm: Perms, shared: Perms): State
    requires e in s.edges
  {
    s.(edges := s.edges[e := s.edges[e].(perm := perm, shared := shared)])
  }

  function WithInherits(s: State, n: NodeId, from: Option<NodeId>): State
  {
    s.(inheritsFrom := if from.Some? then s.inheritsFrom[n := from.value] else s.inheritsFrom - {n})
  }

  // The new edge is created empty and then attached.
  function WithEdge(s: State, e: EdgeId, edge: Edge): State
    requires e !in s.edges
  {
    ReplaceNoperm(s.(edges := s.edges[e := edge.(bs := None)]), e, edge.bs)
  }

  ghost function Perform(s: State, op: Op): State
    requires Allowed(s, op)
  {
    match op
    case SetPermOp(e, perm, shared) => WithPerm(s, e, perm, shared)
    case ReplaceOp(e, bs) => AddRef(ReplaceNoperm(s, e, bs), bs, 1)
    case AttachOp(e, edge) => AddRef(WithEdge(s, e, edge), edge.bs, 1)
    case RemoveOp(e) => if s.edges[e].bs.Some? then ReplaceNoperm(s, e, None) else s
    case InheritOp(n, from) => WithInherits(s, n, from)
  }

  // The actions pushed for a change, newest first.
  ghost function Pushed(s: State, op: Op): seq<Action>
    requires Allowed(s, op)
  {
    match op
    case SetPermOp(e, _, _) => [SetPerm(e, s.edges[e].perm, s.edges[e].shared)]
    case ReplaceOp(e, _) => [ReplaceChild(e, s.edges[e].bs)]
    case AttachOp(e, _) => [AttachChild(e)]
    case RemoveOp(e) =>
      if s.edges[e].bs.Some? then [RemoveChild(e), ReplaceChild(e, s.edges[e].bs)] else [RemoveChild(e)]
    case InheritOp(n, _) => [SetInheritsFrom(n, if n in s.inheritsFrom then Some(s.inheritsFrom[n]) else None)]
  }

  function WithoutEdge(s: State, e: EdgeId): State {
    s.(edges := s.edges - {e})
  }

  // The abort callback of an action.
  function Undo(s: State, a: Action): State {
    match a
    case SetPerm(e, perm, shared) => if e in s.edges then WithPerm(s, e, perm, shared) else s
    case ReplaceChild(e, oldBs) =>
      if e in s.edges then AddRef(ReplaceNoperm(s, e, oldBs), s.edges[e].bs, -1) else s
    case AttachChild(e) =>
      if e in s.edges then AddRef(WithoutEdge(ReplaceNoperm(s, e, None), e), s.edges[e].bs, -1) else s
    case RemoveChild(_) => s
    case SetInheritsFrom(n, from) => WithInherits(s, n, from)
  }

  // tran_abort: the newest action is first in the list.
  function Rollback(s: State, actions: seq<Action>): State
    decreases |actions|
  {
    if actions == [] then s else Rollback(Undo(s, actions[0]), actions[1..])
  }

  // ------------------------------------------------------------- undoing one change

  // The links when edge e, with the given parent and slot, is attached or not.
  function NewLinks(links: map<(NodeId, Slot), EdgeId>, parent: Option<NodeId>, slot: Slot, e: EdgeId, isAttached: bool)
    : map<(NodeId, Slot), EdgeId>
  {
    if parent.None? || slot.NoSlot? then links
    else if isAttached then links[(parent.value, slot) := e]
    else links - {(parent.value, slot)}
  }

  // Replacing what an edge points to changes the edge's target and its link only.
  function Retarget(s: State, e: EdgeId, bs: Option<NodeId>): State
    requires e in s.edges
  {
    var c := s.edges[e];
    State(s.nodes, s.edges[e := c.(bs := bs)],
          NewLinks(s.links, c.parent, EdgeSlot(s.nodes, c.parent, c.role), e, bs.Some?),
          s.inheritsFrom, s.refs)
  }

  lemma ReplaceNopermIs(s: State, e: EdgeId, bs: Option<NodeId>)
    requires WellFormed(s) && e in s.edges && s.edges[e].bs != bs
    ensures ReplaceNoperm(s, e, bs) == Retarget(s, e, bs)
  {
    if s.edges[e].parent.Some? && s.edges[e].bs.Some? {
      var n := s.edges[e].parent.value;
      assert LinksTo(s, n, BackingSlot, e) <==> TakesSlot(s, e, n, BackingSlot);
      assert LinksTo(s, n, FileSlot, e) <==> TakesSlot(s, e, n, FileSlot);
    }
  }

  lemma RetargetKeepsLink(s: State, e: EdgeId, bs: Option<NodeId>, n: NodeId, slot: Slot, f: EdgeId)
    requires e in s.edges && s.edges[e].bs != bs && (bs.Some? ==> SlotFree(s, e))
    requires LinksTo(s, n, slot, f) <==> slot != NoSlot && TakesSlot(s, f, n, slot)
    requires LinksTo(s, n, slot, e) <==> slot != NoSlot && TakesSlot(s, e, n, slot)
    ensures var t := Retarget(s, e, bs);
      LinksTo(t, n, slot, f) <==> slot != NoSlot && TakesSlot(t, f, n, slot)
  {
  }

  lemma RetargetKeepsWellFormed(s: State, e: EdgeId, bs: Option<NodeId>)
    requires WellFormed(s) && e in s.edges && s.edges[e].bs != bs
    requires bs.Some? ==> bs.value in s.nodes && SlotFree(s, e)
    ensures WellFormed(Retarget(s, e, bs))
  {
    var t := Retarget(s, e, bs);
    forall n: NodeId, slot: Slot, f: EdgeId
      ensures LinksTo(t, n, slot, f) <==> slot != NoSlot && TakesSlot(t, f, n, slot)
    {
      RetargetKeepsLink(s, e, bs, n, slot, f);
    }
  }

  // Pointing the edge back restores the state.
  lemma RetargetBack(s: State, e: EdgeId, bs: Option<NodeId>)
    requires WellFormed(s) && e in s.edges && s.edges[e].bs != bs
    requires bs.Some? ==> SlotFree(s, e)
    ensures Retarget(Retarget(s, e, bs), e, s.edges[e].bs) == s
  {
    var c := s.edges[e];
    var slot := EdgeSlot(s.nodes, c.parent, c.role);
    if c.parent.Some? {
      assert LinksTo(s, c.parent.value, slot, e) <==> slot != NoSlot && TakesSlot(s, e, c.parent.value, slot);
    }
    LinksBack(s.links, c.parent, slot, e, bs.Some?, c.bs.Some?);
    assert s.edges[e := c.(bs := bs)][e := c] == s.edges;
  }

  lemma LinksBack(links: map<(NodeId, Slot), EdgeId>, parent: Option<NodeId>, slot: Slot, e: EdgeId,
                  isAttached: bool, wasAttached: bool)
    requires parent.Some? && slot != NoSlot ==>
      && (wasAttached <==> (parent.value, slot) in links && links[(parent.value, slot)] == e)
      && (isAttached && (parent.value, slot) in links ==> links[(parent.value, slot)] == e)
      && (!isAttached ==> wasAttached)
    ensures NewLinks(NewLinks(links, parent, slot, e, isAttached), parent, slot, e, wasAttached) == links
  {
  }

  lemma AddRefKeepsWellFormed(s: State, bs: Option<NodeId>, d: int)
    requires WellFormed(s)
    ensures WellFormed(AddRef(s, bs, d))
  {
    var t := AddRef(s, bs, d);
    forall n: NodeId, slot: Slot, f: EdgeId
      ensures LinksTo(t, n, slot, f) <==> slot != NoSlot && TakesSlot(t, f, n, slot)
    {
      assert LinksTo(s, n, slot, f) <==> slot != NoSlot && TakesSlot(s, f, n, slot);
    }
  }

  // References and targets are independent.
  lemma AddRefCommutes(s: State, e: EdgeId, bs: Option<NodeId>, n: Option<NodeId>, d: int)
    requires e in s.edges
    ensures Retarget(AddRef(s, n, d), e, bs) == AddRef(Retarget(s, e, bs), n, d)
  {
  }

  lemma AddRefBack(s: State, bs: Option<NodeId>)
    ensures AddRef(AddRef(s, bs, 1), bs, -1) == s
  {
  }

  lemma UndoReplace(s: State, e: EdgeId, bs: Option<NodeId>)
    requires WellFormed(s) && Allowed(s, ReplaceOp(e, bs))
    ensures WellFormed(Perform(s, ReplaceOp(e, bs)))
    ensures Undo(Perform(s, ReplaceOp(e, bs)), ReplaceChild(e, s.edges[e].bs)) == s
  {
    ReplaceNopermIs(s, e, bs);
    RetargetKeepsWellFormed(s, e, bs);
    var r := Retarget(s, e, bs);
    AddRefKeepsWellFormed(r, bs, 1);
    var t := AddRef(r, bs, 1);
    ReplaceNopermIs(t, e, s.edges[e].bs);
    AddRefCommutes(r, e, s.edges[e].bs, bs, 1);
    RetargetBack(s, e, bs);
    AddRefBack(s, bs);
  }

  lemma EmptyEdgeKeepsWellFormed(s: State, e: EdgeId, edge: Edge)
    requires WellFormed(s) && Allowed(s, AttachOp(e, edge))
    ensures WellFormed(s.(edges := s.edges[e := edge.(bs := None)]))
    ensures SlotFree(s.(edges := s.edges[e := edge.(bs := None)]), e)
  {
    var t := s.(edges := s.edges[e := edge.(bs := None)]);
    forall n: NodeId, slot: Slot, f: EdgeId
      ensures LinksTo(t, n, slot, f) <==> slot != NoSlot && TakesSlot(t, f, n, slot)
    {
      assert LinksTo(s, n, slot, f) <==> slot != NoSlot && TakesSlot(s, f, n, slot);
    }
  }

  lemma UndoAttach(s: State, e: EdgeId, edge: Edge)
    requires WellFormed(s) && Allowed(s, AttachOp(e, edge))
    ensures WellFormed(Perform(s, AttachOp(e, edge)))
    ensures Undo(Perform(s, AttachOp(e, edge)), AttachChild(e)) == s
  {
    var z := s.(edges := s.edges[e := edge.(bs := None)]);
    EmptyEdgeKeepsWellFormed(s, e, edge);
    ReplaceNopermIs(z, e, edge.bs);
    RetargetKeepsWellFormed(z, e, edge.bs);
    var r := Retarget(z, e, edge.bs);
    AddRefKeepsWellFormed(r, edge.bs, 1);
    var t := AddRef(r, edge.bs, 1);
    ReplaceNopermIs(t, e, None);
    AddRefCommutes(r, e, None, edge.bs, 1);
    RetargetBack(z, e, edge.bs);
    assert WithoutEdge(AddRef(z, edge.bs, 1), e).edges == s.edges;
    AddRefBack(s, edge.bs);
  }

  lemma UndoRemove(s: State, e: EdgeId)
    requires WellFormed(s) && Allowed(s, RemoveOp(e))
    ensures WellFormed(Perform(s, RemoveOp(e)))
    ensures s.edges[e].bs.Some? ==>
      Undo(Undo(Perform(s, RemoveOp(e)), RemoveChild(e)), ReplaceChild(e, s.edges[e].bs)) == s
  {
    if s.edges[e].bs.Some? {
      ReplaceNopermIs(s, e, None);
      RetargetKeepsWellFormed(s, e, None);
      var t := Retarget(s, e, None);
      ReplaceNopermIs(t, e, s.edges[e].bs);
      RetargetBack(s, e, None);
    }
  }

  lemma UndoFields(s: State, op: Op)
    requires WellFormed(s) && Allowed(s, op) && (op.SetPermOp? || op.InheritOp?)
    ensures WellFormed(Perform(s, op))
    ensures Undo(Perform(s, op), Pushed(s, op)[0]) == s
  {
    var t := Perform(s, op);
    forall n: NodeId, slot: Slot, f: EdgeId
      ensures LinksTo(t, n, slot, f) <==> slot != NoSlot && TakesSlot(t, f, n, slot)
    {
      assert LinksTo(s, n, slot, f) <==> slot != NoSlot && TakesSlot(s, f, n, slot);
    }
    var u := Undo(t, Pushed(s, op)[0]);
    assert u.edges == s.edges && u.inheritsFrom == s.inheritsFrom;
  }

  // Undoing the actions pushed for a change undoes the change.
  lemma ChangeIsUndone(s: State, op: Op)
    requires WellFormed(s) && Allowed(s, op)
    ensures WellFormed(Perform(s, op))
    ensures Rollback(Perform(s, op), Pushed(s, op)) == s
  {
    var t := Perform(s, op);
    var l := Pushed(s, op);
    assert |l| == 1 ==> Rollback(t, l) == Rollback(Undo(t, l[0]), []);
    match op
    case ReplaceOp(e, bs) => UndoReplace(s, e, bs);
    case AttachOp(e, edge) => UndoAttach(s, e, edge);
    case RemoveOp(e) =>
      UndoRemove(s, e);
      if s.edges[e].bs.Some? {
        assert l[1..] == [l[1]];
        assert Rollback(t, l) == Rollback(Undo(t, l[0]), [l[1]]);
        assert Rollback(Undo(t, l[0]), [l[1]]) == Undo(Undo(t, l[0]), l[1]);
      }
    case _ => UndoFields(s, op);
  }

  // -------------------------------------------------------------- whole transactions

  lemma {:induction false} RollbackConcat(s: State, a: seq<Action>, b: seq<Action>)
    ensures Rollback(s, a + b) == Rollback(Rollback(s, a), b)
    decreases |a|
  {
    if a == [] {
      assert a + b == b;
    } else {
      assert (a + b)[1..] == a[1..] + b;
      RollbackConcat(Undo(s, a[0]), a[1..], b);
    }
  }

  // The state and the log after a sequence of changes.
  ghost predicate AllAllowed(s: State, ops: seq<Op>)
    decreases |ops|
  {
    ops == [] || (Allowed(s, ops[0]) && AllAllowed(Perform(s, ops[0]), ops[1..]))
  }

  ghost function PerformAll(s: State, ops: seq<Op>): State
    requires AllAllowed(s, ops)
    decreases |ops|
  {
    if ops == [] then s else PerformAll(Perform(s, ops[0]), ops[1..])
  }

  ghost function Log(s: State, ops: seq<Op>): seq<Action>
    requires AllAllowed(s, ops)
    decreases |ops|
  {
    if ops == [] then [] else Log(Perform(s, ops[0]), ops[1..]) + Pushed(s, ops[0])
  }

  // Aborting a transaction restores the graph exactly: edges, targets, links,
  // permissions, inherits_from and reference counts.
  lemma {:induction false} AbortRestores(s: State, ops: seq<Op>)
    requires WellFormed(s) && AllAllowed(s, ops)
    ensures WellFormed(PerformAll(s, ops))
    ensures Rollback(PerformAll(s, ops), Log(s, ops)) == s
    decreases |ops|
  {
    if ops != [] {
      var t := Perform(s, ops[0]);
      ChangeIsUndone(s, ops[0]);
      AbortRestores(t, ops[1..]);
      RollbackConcat(PerformAll(s, ops), Log(t, ops[1..]), Pushed(s, ops[0]));
    }
  }

  // ------------------------------------------------------------- reference counts

  // The references that the log holds: those of replaced targets.
  function Held(actions: seq<Action>, n: NodeId): nat {
    if actions == [] then 0
    else (if actions[0].ReplaceChild? && actions[0].oldBs == Some(n) then 1 else 0) + Held(actions[1..], n)
  }

  lemma {:induction false} HeldConcat(a: seq<Action>, b: seq<Action>, n: NodeId)
    ensures Held(a + b, n) == Held(a, n) + Held(b, n)
  {
    if a == [] {
      assert a + b == b;
    } else {
      assert (a + b)[1..] == a[1..] + b;
      HeldConcat(a[1..], b, n);
    }
  }

  // Every reference to node n is an edge's, the log's, or one held from outside.
  ghost predicate Balanced(s: State, actions: seq<Action>, outside: map<NodeId, int>, n: NodeId) {
    n in s.refs && n in outside && s.refs[n] == outside[n] + |Parents(s, n)| + Held(actions, n)
  }

  lemma RetargetParents(s: State, e: EdgeId, bs: Option<NodeId>, n: NodeId)
    requires e in s.edges && s.edges[e].bs != bs
    ensures var t := Retarget(s, e, bs);
      |Parents(t, n)| == |Parents(s, n)| + (if bs == Some(n) then 1 else 0) - (if s.edges[e].bs == Some(n) then 1 else 0)
  {
    var t := Retarget(s, e, bs);
    if bs == Some(n) {
      assert Parents(t, n) == Parents(s, n) + {e};
    } else if s.edges[e].bs == Some(n) {
      assert Parents(t, n) == Parents(s, n) - {e};
    } else {
      assert Parents(t, n) == Parents(s, n);
    }
  }

  lemma SameTargetsSameParents(s: State, t: State, n: NodeId)
    requires s.edges.Keys == t.edges.Keys && forall e :: e in s.edges ==> s.edges[e].bs == t.edges[e].bs
    ensures Parents(s, n) == Parents(t, n)
  {
  }

  lemma ReplaceKeepsBalance(s: State, op: Op, actions: seq<Action>, outside: map<NodeId, int>, n: NodeId)
    requires WellFormed(s) && Allowed(s, op) && (op.ReplaceOp? || op.RemoveOp?) && Balanced(s, actions, outside, n)
    ensures Balanced(Perform(s, op), Pushed(s, op) + actions, outside, n)
  {
    HeldConcat(Pushed(s, op), actions, n);
    var bs := if op.ReplaceOp? then op.bs else None;
    if s.edges[op.e].bs != bs {
      ReplaceNopermIs(s, op.e, bs);
      RetargetParents(s, op.e, bs, n);
      var r := Retarget(s, op.e, bs);
      SameTargetsSameParents(r, AddRef(r, bs, 1), n);
    }
  }

  lemma AttachKeepsBalance(s: State, op: Op, actions: seq<Action>, outside: map<NodeId, int>, n: NodeId)
    requires WellFormed(s) && Allowed(s, op) && op.AttachOp? && Balanced(s, actions, outside, n)
    ensures Balanced(Perform(s, op), Pushed(s, op) + actions, outside, n)
  {
    HeldConcat(Pushed(s, op), actions, n);
    var z := s.(edges := s.edges[op.e := op.edge.(bs := None)]);
    EmptyEdgeKeepsWellFormed(s, op.e, op.edge);
    assert Parents(z, n) == Parents(s, n);
    ReplaceNopermIs(z, op.e, op.edge.bs);
    RetargetParents(z, op.e, op.edge.bs, n);
    var r := Retarget(z, op.e, op.edge.bs);
    SameTargetsSameParents(r, AddRef(r, op.edge.bs, 1), n);
  }

  // No change loses or leaks a reference.
  lemma ChangeKeepsBalance(s: State, op: Op, actions: seq<Action>, outside: map<NodeId, int>, n: NodeId)
    requires WellFormed(s) && Allowed(s, op) && Balanced(s, actions, outside, n)
    ensures Balanced(Perform(s, op), Pushed(s, op) + actions, outside, n)
  {
    match op
    case ReplaceOp(_, _) => ReplaceKeepsBalance(s, op, actions, outside, n);
    case RemoveOp(_) => ReplaceKeepsBalance(s, op, actions, outside, n);
    case AttachOp(_, _) => AttachKeepsBalance(s, op, actions, outside, n);
    case _ =>
      HeldConcat(Pushed(s, op), actions, n);
      SameTargetsSameParents(s, Perform(s, op), n);
  }

  // The commit callback of an action.
  function Commit(s: State, a: Action): State {
    match a
    case ReplaceChild(_, oldBs) => AddRef(s, oldBs, -1)
    case RemoveChild(e) => WithoutEdge(s, e)
    case _ => s
  }

  function CommitAll(s: State, actions: seq<Action>): State
    decreases |actions|
  {
    if actions == [] then s else CommitAll(Commit(s, actions[0]), actions[1..])
  }

  // Removed children are empty when they are freed, as bdrv_child_free asserts.
  ghost predicate RemovedAreEmpty(s: State, actions: seq<Action>) {
    forall a :: a in actions && a.RemoveChild? ==> Removed(s, a.e)
  }

  ghost predicate Removed(s: State, e: EdgeId) {
    e in s.edges ==> s.edges[e].bs.None? && !s.edges[e].frozen
  }

  lemma RemovedStays(s: State, op: Op, e: EdgeId)
    requires WellFormed(s) && Allowed(s, op) && e in s.edges && Removed(s, e)
    ensures var t := Perform(s, op); e in t.edges && Removed(t, e)
  {
    match op
    case ReplaceOp(f, bs) => ReplaceNopermIs(s, f, bs);
    case RemoveOp(f) => if s.edges[f].bs.Some? { ReplaceNopermIs(s, f, None); }
    case AttachOp(f, edge) =>
      EmptyEdgeKeepsWellFormed(s, f, edge);
      ReplaceNopermIs(s.(edges := s.edges[f := edge.(bs := None)]), f, edge.bs);
    case _ =>
  }

  lemma {:induction false} RemovedStaysForever(s: State, ops: seq<Op>, e: EdgeId)
    requires WellFormed(s) && AllAllowed(s, ops) && e in s.edges && Removed(s, e)
    ensures Removed(PerformAll(s, ops), e)
    decreases |ops|
  {
    if ops != [] {
      RemovedStays(s, ops[0], e);
      ChangeIsUndone(s, ops[0]);
      RemovedStaysForever(Perform(s, ops[0]), ops[1..], e);
    }
  }

  // No later change of the transaction gives a removed child a target again.
  lemma {:induction false} LoggedRemovalsAreEmpty(s: State, ops: seq<Op>)
    requires WellFormed(s) && AllAllowed(s, ops)
    ensures RemovedAreEmpty(PerformAll(s, ops), Log(s, ops))
    decreases |ops|
  {
    if ops != [] {
      var t := Perform(s, ops[0]);
      ChangeIsUndone(s, ops[0]);
      LoggedRemovalsAreEmpty(t, ops[1..]);
      if ops[0].RemoveOp? {
        if s.edges[ops[0].e].bs.Some? {
          ReplaceNopermIs(s, ops[0].e, None);
        }
        RemovedStaysForever(t, ops[1..], ops[0].e);
      }
    }
  }

  // After a commit every reference is an edge's or one held from outside.
  lemma {:induction false} CommitReleasesHeld(s: State, actions: seq<Action>, outside: map<NodeId, int>, n: NodeId)
    requires Balanced(s, actions, outside, n) && RemovedAreEmpty(s, actions)
    ensures Balanced(CommitAll(s, actions), [], outside, n)
    ensures Parents(CommitAll(s, actions), n) == Parents(s, n)
    decreases |actions|
  {
    if actions != [] {
      var t := Commit(s, actions[0]);
      assert actions[0] in actions;
      assert Parents(t, n) == Parents(s, n);
      assert forall a :: a in actions[1..] ==> a in actions;
      CommitReleasesHeld(t, actions[1..], outside, n);
    }
  }

  lemma {:induction false} ChangesKeepBalance(s: State, ops: seq<Op>, actions: seq<Action>, outside: map<NodeId, int>, n: NodeId)
    requires WellFormed(s) && AllAllowed(s, ops) && Balanced(s, actions, outside, n)
    ensures Balanced(PerformAll(s, ops), Log(s, ops) + actions, outside, n)
    decreases |ops|
  {
    if ops == [] {
      assert Log(s, ops) + actions == actions;
    } else {
      ChangeKeepsBalance(s, ops[0], actions, outside, n);
      ChangeIsUndone(s, ops[0]);
      ChangesKeepBalance(Perform(s, ops[0]), ops[1..], Pushed(s, ops[0]) + actions, outside, n);
      assert Log(s, ops) + actions == Log(Perform(s, ops[0]), ops[1..]) + (Pushed(s, ops[0]) + actions);
    }
  }

  // What a committed transaction leaves behind.
  ghost function Committed(s: State, ops: seq<Op>): State
    requires AllAllowed(s, ops)
  {
    CommitAll(PerformAll(s, ops), Log(s, ops))
  }

  // What a transaction, committed or aborted, can make of a graph.
  ghost predicate Transacted(s: State, t: State) {
    exists ops :: AllAllowed(s, ops) && t == Committed(s, ops)
  }

  lemma AbortedIsTransacted(s: State)
    ensures Transacted(s, s)
  {
    assert AllAllowed(s, []) && Committed(s, []) == s;
  }

  // A committed transaction of any changes loses and leaks no reference.
  lemma TransactionIsBalanced(s: State, ops: seq<Op>, outside: map<NodeId, int>, n: NodeId)
    requires WellFormed(s) && AllAllowed(s, ops) && Balanced(s, [], outside, n)
    ensures Balanced(Committed(s, ops), [], outside, n)
  {
    ChangesKeepBalance(s, ops, [], outside, n);
    assert Log(s, ops) + [] == Log(s, ops);
    LoggedRemovalsAreEmpty(s, ops);
    CommitReleasesHeld(PerformAll(s, ops), Log(s, ops), outside, n);
  }

  // Removed edges are gone after the commit.
  lemma {:induction false} CommitFrees(s: State, actions: seq<Action>, e: EdgeId)
    requires e !in s.edges || RemoveChild(e) in actions
    ensures e !in CommitAll(s, actions).edges
    decreases |actions|
  {
    if actions != [] {
      CommitFrees(Commit(s, actions[0]), actions[1..], e);
    }
  }

  lemma {:induction false} RemovalIsLogged(s: State, ops: seq<Op>, e: EdgeId)
    requires AllAllowed(s, ops) && RemoveOp(e) in ops
    ensures RemoveChild(e) in Log(s, ops)
    decreases |ops|
  {
    if ops[0] == RemoveOp(e) {
      assert RemoveChild(e) in Pushed(s, ops[0]);
    } else {
      RemovalIsLogged(Perform(s, ops[0]), ops[1..], e);
    }
  }

  lemma RemovedEdgesAreGone(s: State, ops: seq<Op>, e: EdgeId)
    requires WellFormed(s) && AllAllowed(s, ops) && RemoveOp(e) in ops
    ensures e !in Committed(s, ops).edges
  {
    RemovalIsLogged(s, ops, e);
    CommitFrees(PerformAll(s, ops), Log(s, ops), e);
  }

  lemma {:induction false} CommitKeepsWellFormed(s: State, actions: seq<Action>)
    requires WellFormed(s) && RemovedAreEmpty(s, actions)
    ensures WellFormed(CommitAll(s, actions))
    decreases |actions|
  {
    if actions != [] {
      var t := Commit(s, actions[0]);
      assert actions[0] in actions && forall a :: a in actions[1..] ==> a in actions;
      assert WellFormed(t) by {
        if actions[0].ReplaceChild? {
          AddRefKeepsWellFormed(s, actions[0].oldBs, -1);
        } else if actions[0].RemoveChild? {
          WithoutEdgeKeepsWellFormed(s, actions[0].e);
        }
      }
      CommitKeepsWellFormed(t, actions[1..]);
    }
  }

  lemma WithoutEdgeKeepsWellFormed(s: State, e: EdgeId)
    requires WellFormed(s) && Removed(s, e)
    ensures WellFormed(WithoutEdge(s, e))
  {
    var t := WithoutEdge(s, e);
    forall n: NodeId, slot: Slot, f: EdgeId
      ensures LinksTo(t, n, slot, f) <==> slot != NoSlot && TakesSlot(t, f, n, slot)
    {
      assert LinksTo(s, n, slot, f) <==> slot != NoSlot && TakesSlot(s, f, n, slot);
    }
  }

  // One more change at the end of a transaction.
  lemma {:induction false} OneMoreChange(s: State, ops: seq<Op>, op: Op)
    requires AllAllowed(s, ops) && Allowed(PerformAll(s, ops), op)
    ensures AllAllowed(s, ops + [op])
    ensures PerformAll(s, ops + [op]) == Perform(PerformAll(s, ops), op)
    ensures Log(s, ops + [op]) == Pushed(PerformAll(s, ops), op) + Log(s, ops)
    decreases |ops|
  {
    if ops == [] {
      assert ops + [op] == [op] && [op][1..] == [];
      assert Log(s, [op]) == Log(Perform(s, op), []) + Pushed(s, op);
    } else {
      assert (ops + [op])[0] == ops[0] && (ops + [op])[1..] == ops[1..] + [op];
      OneMoreChange(Perform(s, ops[0]), ops[1..], op);
    }
  }

  // An inactive node can be attached only for reading (3113-3118).
  predicate MayAttach(s: State, edge: Edge) {
    edge.bs.Some? && edge.bs.value in s.nodes && s.nodes[edge.bs.value].inactive ==> edge.perm <= {ConsistentRead}
  }

  // ------------------------------------------------------------------- in place

  // A graph that is being changed in a transaction.
  class Transaction {
    var graph: State
    var actions: seq<Action>         // newest first
    ghost const start: State         // the graph when the transaction began
    ghost var changes: seq<Op>       // what has been done since

    ghost predicate Valid()
      reads this
    {
      && WellFormed(start) && AllAllowed(start, changes)
      && graph == PerformAll(start, changes) && actions == Log(start, changes)
      && WellFormed(graph)
    }

    constructor (g: State)
      requires WellFormed(g)
      ensures Valid() && graph == start == g && actions == [] && changes == []
    {
      graph := g;
      start := g;
      actions := [];
      changes := [];
    }

    lemma Pushing(op: Op)
      requires Valid() && Allowed(graph, op)
      ensures WellFormed(Perform(graph, op))
      ensures AllAllowed(start, changes + [op]) && PerformAll(start, changes + [op]) == Perform(graph, op)
      ensures Log(start, changes + [op]) == Pushed(graph, op) + actions
    {
      ChangeIsUndone(graph, op);
      OneMoreChange(start, changes, op);
    }

    method ChildSetPerm(e: EdgeId, perm: Perms, shared: Perms)
      requires Valid() && Allowed(graph, SetPermOp(e, perm, shared))
      modifies this
      ensures Valid() && graph == Perform(old(graph), SetPermOp(e, perm, shared))
      ensures changes == old(changes) + [SetPermOp(e, perm, shared)]
    {
      Pushing(SetPermOp(e, perm, shared));
      actions := [SetPerm(e, graph.edges[e].perm, graph.edges[e].shared)] + actions;
      graph := WithPerm(graph, e, perm, shared);
      changes := changes + [SetPermOp(e, perm, shared)];
    }

    method ReplaceChildTran(e: EdgeId, bs: Option<NodeId>)
      requires Valid() && Allowed(graph, ReplaceOp(e, bs))
      modifies this
      ensures Valid() && graph == Perform(old(graph), ReplaceOp(e, bs))
      ensures changes == old(changes) + [ReplaceOp(e, bs)]
    {
      Pushing(ReplaceOp(e, bs));
      actions := [ReplaceChild(e, graph.edges[e].bs)] + actions;
      graph := AddRef(ReplaceNoperm(graph, e, bs), bs, 1);
      changes := changes + [ReplaceOp(e, bs)];
    }

    method RemoveChildTran(e: EdgeId)
      requires Valid() && Allowed(graph, RemoveOp(e))
      modifies this
      ensures Valid() && graph == Perform(old(graph), RemoveOp(e))
      ensures changes == old(changes) + [RemoveOp(e)]
    {
      Pushing(RemoveOp(e));
      if graph.edges[e].bs.Some? {
        actions := [ReplaceChild(e, graph.edges[e].bs)] + actions;
        graph := ReplaceNoperm(graph, e, None);
      }
      actions := [RemoveChild(e)] + actions;
      changes := changes + [RemoveOp(e)];
    }

    // bdrv_attach_child_common; joined says whether the two ends could be brought
    // into one AioContext.
    method AttachChildCommon(e: EdgeId, edge: Edge, joined: bool) returns (ok: bool)
      requires Valid() && Allowed(graph, AttachOp(e, edge))
      modifies this
      ensures Valid() && (ok <==> MayAttach(old(graph), edge) && joined)
      ensures graph == if ok then Perform(old(graph), AttachOp(e, edge)) else old(graph)
      ensures changes == if ok then old(changes) + [AttachOp(e, edge)] else old(changes)
    {
      if graph.nodes[edge.bs.value].inactive && !(edge.perm <= {ConsistentRead}) {
        return false;
      }
      if !joined {
        return false;
      }
      Pushing(AttachOp(e, edge));
      graph := AddRef(WithEdge(graph, e, edge), edge.bs, 1);
      actions := [AttachChild(e)] + actions;
      changes := changes + [AttachOp(e, edge)];
      return true;
    }

    method SetInheritsFromTran(n: NodeId, from: Option<NodeId>)
      requires Valid() && Allowed(graph, InheritOp(n, from))
      modifies this
      ensures Valid() && graph == Perform(old(graph), InheritOp(n, from))
      ensures changes == old(changes) + [InheritOp(n, from)]
    {
      Pushing(InheritOp(n, from));
      actions := [SetInheritsFrom(n, if n in graph.inheritsFrom then Some(graph.inheritsFrom[n]) else None)] + actions;
      graph := WithInherits(graph, n, from);
      changes := changes + [InheritOp(n, from)];
    }

    // tran_abort.
    method Abort()
      requires Valid()
      modifies this
      ensures Valid() && graph == start && actions == [] && changes == []
    {
      AbortRestores(start, changes);
      while actions != []
        invariant Rollback(graph, actions) == start
        decreases |actions|
      {
        graph := Undo(graph, actions[0]);
        actions := actions[1..];
      }
      changes := [];
    }

    // tran_commit.
    method CommitTran()
      requires Valid()
      modifies this
      ensures graph == Committed(start, old(changes)) && WellFormed(graph) && actions == []
    {
      LoggedRemovalsAreEmpty(start, changes);
      CommitKeepsWellFormed(graph, actions);
      while actions != []
        invariant CommitAll(graph, actions) == CommitAll(old(graph), old(actions))
        decreases |actions|
      {
        graph := Commit(graph, actions[0]);
        actions := actions[1..];
      }
    }
  }
}
