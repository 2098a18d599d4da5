/**
 The block graph: nodes (BlockDriverState), edges (BdrvChild), and the links a
 node keeps to its backing and file child (xemu/block.c:1441-1498, 2952-3013).

 Edges without a parent node belong to a block backend or a job.  The child and
 parent lists of the source are sets here, computed from the edges.
 */
module BlockGraph {

  import opened Wrappers

  type NodeId = nat
  type EdgeId = nat

  datatype Perm = ConsistentRead | Write | WriteUnchanged | Resize
  type Perms = set<Perm>
  const ALL: Perms := {ConsistentRead, Write, WriteUnchanged, Resize}

  datatype Role = Role(data: bool, metadata: bool, filtered: bool, cow: bool, primary: bool)

  datatype Driver = Driver(isFilter: bool, filteredChildIsBacking: bool, supportsBacking: bool)

  // What does not change while the graph is rearranged.
  datatype Node = Node(
    drv: Option<Driver>,
    writable: bool,             // opened read-write, and not inactive
    inactive: bool,             // BDRV_O_INACTIVE
    noIo: bool,                 // BDRV_O_NO_IO
    roWriteShare: bool,         // BDRV_O_RO_WRITE_SHARE
    forceShare: bool,
    neverFreeze: bool,
    sizeAligned: bool)          // the size is a multiple of the request alignment

  datatype Edge = Edge(
    parent: Option<NodeId>,
    bs: Option<NodeId>,
    role: Role,
    perm: Perms,
    shared: Perms,
    frozen: bool,
    stayAtNode: bool)

  datatype Slot = BackingSlot | FileSlot | NoSlot

  datatype State = State(
    nodes: map<NodeId, Node>,
    edges: map<EdgeId, Edge>,
    links: map<(NodeId, Slot), EdgeId>,   // the backing and file links of the nodes
    inheritsFrom: map<NodeId, NodeId>,
    refs: map<NodeId, int>)               // reference counts once scheduled unrefs have run

  function Parents(s: State, n: NodeId): set<EdgeId> {
    set e | e in s.edges && s.edges[e].bs == Some(n)
  }

  function Children(s: State, n: NodeId): set<EdgeId> {
    set e | e in s.edges && s.edges[e].parent == Some(n) && s.edges[e].bs.Some?
  }

  // ------------------------------------------------------------ backing and file

  // The link that an attached child of this role takes in its parent.
  function SlotOf(d: Driver, role: Role): Slot {
    if d.isFilter || role.filtered then
      if role.primary then (if d.filteredChildIsBacking then BackingSlot else FileSlot) else NoSlot
    else if role.cow then BackingSlot
    else if role.primary then FileSlot
    else NoSlot
  }

  // The file link is that of the primary child, unless the driver keeps its filtered
  // child as backing; the backing link is otherwise that of the COW child.
  lemma SlotOfMeaning(d: Driver, role: Role)
    requires RoleFits(d, role)
    ensures SlotOf(d, role).BackingSlot? <==> role.cow || (role.primary && role.filtered && d.filteredChildIsBacking)
    ensures SlotOf(d, role).FileSlot? <==> role.primary && !(role.filtered && d.filteredChildIsBacking)
  {
  }

  // Which children a node can have: a filter has no COW child, and its primary child
  // is the filtered one; a COW child needs a driver that supports it.
  lemma RolesAreSensible(s: State, e: EdgeId)
    requires WellFormed(s) && e in s.edges && s.edges[e].parent.Some?
    ensures s.edges[e].parent.value in s.nodes && s.nodes[s.edges[e].parent.value].drv.Some?
    ensures var d := s.nodes[s.edges[e].parent.value].drv.value; var role := s.edges[e].role;
      && (role.cow ==> !d.isFilter && !role.filtered && !role.primary && d.supportsBacking)
      && (role.filtered ==> role.primary)
      && (d.isFilter && role.primary ==> role.filtered)
  {
  }

  // The assertions of bdrv_child_cb_attach about roles.
  predicate RoleFits(d: Driver, role: Role) {
    if d.isFilter || role.filtered then !role.cow && (role.primary <==> role.filtered)
    else role.cow ==> d.supportsBacking && !role.primary
  }

  predicate TakesSlot(s: State, e: EdgeId, n: NodeId, slot: Slot) {
    e in s.edges && s.edges[e].parent == Some(n) && s.edges[e].bs.Some? && EdgeSlot(s.nodes, s.edges[e].parent, s.edges[e].role) == slot
  }

  // Edges join existing nodes, parents have drivers, and the links are exact.
  ghost predicate WellFormed(s: State) {
    && (forall e :: e in s.edges ==>
          && (s.edges[e].bs.Some? ==> s.edges[e].bs.value in s.nodes)
          && (s.edges[e].parent.Some? ==>
                && s.edges[e].parent.value in s.nodes
                && s.nodes[s.edges[e].parent.value].drv.Some?
                && RoleFits(s.nodes[s.edges[e].parent.value].drv.value, s.edges[e].role)))
    && (forall n: NodeId, slot: Slot, e: EdgeId ::
          LinksTo(s, n, slot, e) <==> slot != NoSlot && TakesSlot(s, e, n, slot))
    && s.refs.Keys == s.nodes.Keys
  }

  // bdrv_child_cb_detach.
  function Detach(s: State, e: EdgeId): State
    requires e in s.edges
  {
    var p := s.edges[e].parent;
    if p.None? then s
    else if LinksTo(s, p.value, BackingSlot, e) then s.(links := s.links - {(p.value, BackingSlot)})
    else if LinksTo(s, p.value, FileSlot, e) then s.(links := s.links - {(p.value, FileSlot)})
    else s
  }

  predicate LinksTo(s: State, n: NodeId, slot: Slot, e: EdgeId) {
    (n, slot) in s.links && s.links[(n, slot)] == e
  }

  function Link(s: State, n: NodeId, slot: Slot): Option<EdgeId> {
    if (n, slot) in s.links then Some(s.links[(n, slot)]) else None
  }

  // The slot that an edge with this parent and role takes when attached.
  function EdgeSlot(nodes: map<NodeId, Node>, parent: Option<NodeId>, role: Role): (slot: Slot)
    ensures !slot.NoSlot? ==> parent.Some?
  {
    if parent.Some? && parent.value in nodes && nodes[parent.value].drv.Some?
    then SlotOf(nodes[parent.value].drv.value, role) else NoSlot
  }

  // bdrv_child_cb_attach.
  function Attach(s: State, e: EdgeId): State
    requires e in s.edges
  {
    var slot := EdgeSlot(s.nodes, s.edges[e].parent, s.edges[e].role);
    if slot.NoSlot? then s else s.(links := s.links[(s.edges[e].parent.value, slot) := e])
  }

  function SetTarget(s: State, e: EdgeId, bs: Option<NodeId>): State
    requires e in s.edges
  {
    s.(edges := s.edges[e := s.edges[e].(bs := bs)])
  }

  // bdrv_replace_child_noperm.
  function ReplaceNoperm(s: State, e: EdgeId, bs: Option<NodeId>): (t: State)
    requires e in s.edges
  {
    var t := if s.edges[e].bs.Some? then Detach(s, e) else s;
    var t := SetTarget(t, e, bs);
    if bs.Some? then Attach(t, e) else t
  }

  // The link that e takes is not taken by another child.
  predicate SlotFree(s: State, e: EdgeId)
    requires e in s.edges
  {
    var slot := EdgeSlot(s.nodes, s.edges[e].parent, s.edges[e].role);
    !slot.NoSlot? && (s.edges[e].parent.value, slot) in s.links ==>
      s.links[(s.edges[e].parent.value, slot)] == e
  }

  function AddRef(s: State, bs: Option<NodeId>, d: int): State {
    if bs.Some? && bs.value in s.refs then s.(refs := s.refs[bs.value := s.refs[bs.value] + d]) else s
  }
}
