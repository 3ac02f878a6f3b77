/**
 * NodeService: lookup, creation, partial update and cascading deletion of nodes.
 *
 * Kept as written: width, height, fontSize, bold and italic exist on both
 * inputs and on the stored node, but createNode never copies them and
 * updateNode never merges them.
 */
module NodeService {
  import opened Wrappers
  import opened Entities
  import opened Subscriptions
  import opened Repositories
  import EdgeService

  const NodeNotFound := "Node not found"

  function GetNode(s: Server, id: Id): (r: Result<Node>)
    ensures r.Ok? <==> id in s.nodes
    ensures r.Ok? ==> r.value == s.nodes[id]
    ensures r.Err? ==> r.error == NodeNotFound
  {
    if id in s.nodes then Ok(s.nodes[id]) else Err(NodeNotFound)
  }

  /** The node createNode builds: the layout fields of the input are not copied. */
  function NewNode(input: CreateNodeInput, id: Id, createdBy: Option<User>): Node
  {
    Node(id, input.boardId, input.text, input.x, input.y, input.color, input.shape, input.size,
         None, None, None, None, None, input.data, createdBy)
  }

  /** The input fields createNode and updateNode actually read. */
  predicate Copied(n: Node, input: CreateNodeInput)
  {
    && n.boardId == input.boardId && n.text == input.text && n.x == input.x && n.y == input.y
    && n.color == input.color && n.shape == input.shape && n.size == input.size && n.data == input.data
  }

  /**
   * createNode: stores a node with a fresh id and the input's board, label,
   * position, colour, shape, size and data; width, height, font size, bold and
   * italic stay null whatever the input says. One Created change goes to the
   * input's board.
   */
  function CreateNode(s: Server, input: CreateNodeInput, createdBy: Option<User>, freshId: Id): (r: Reply<Node>)
    requires freshId !in s.nodes
    ensures r.result.Ok?
    ensures var n := r.result.value;
      && n.id == freshId && Copied(n, input) && n.createdBy == createdBy
      && n.width.None? && n.height.None? && n.fontSize.None? && n.bold.None? && n.italic.None?
    ensures r.server.nodes.Keys == s.nodes.Keys + {freshId}
    ensures r.server.nodes[freshId] == r.result.value
    ensures forall k :: k in s.nodes ==> r.server.nodes[k] == s.nodes[k]
    ensures r.server.edges == s.edges && r.server.boards == s.boards && r.server.users == s.users
    ensures PublishedNode(s.bus, r.server.bus, input.boardId, NodeChange(Some(r.result.value), freshId, Created))
  {
    var n := NewNode(input, freshId, createdBy);
    var s' := s.(nodes := s.nodes[freshId := n]);
    Reply(s'.(bus := PublishNodeChange(s'.bus, input.boardId, NodeChange(Some(n), freshId, Created))), Ok(n))
  }

  /**
   * The partial update of updateNode: each of label, x, y, colour, shape, size
   * and data is overwritten when the input gives it and kept when it is null;
   * every other field, width, height, font size, bold and italic included,
   * keeps its stored value.
   */
  function MergeNode(n: Node, input: UpdateNodeInput): (m: Node)
    ensures input.text.Some? ==> m.text == input.text
    ensures input.text.None? ==> m.text == n.text
    ensures input.x.Some? ==> m.x == input.x
    ensures input.x.None? ==> m.x == n.x
    ensures input.y.Some? ==> m.y == input.y
    ensures input.y.None? ==> m.y == n.y
    ensures input.color.Some? ==> m.color == input.color
    ensures input.color.None? ==> m.color == n.color
    ensures input.shape.Some? ==> m.shape == input.shape
    ensures input.shape.None? ==> m.shape == n.shape
    ensures input.size.Some? ==> m.size == input.size
    ensures input.size.None? ==> m.size == n.size
    ensures input.data.Some? ==> m.data == input.data
    ensures input.data.None? ==> m.data == n.data
    ensures m.(text := n.text, x := n.x, y := n.y, color := n.color, shape := n.shape,
               size := n.size, data := n.data) == n
  {
    n.(text := input.text.Or(n.text), x := input.x.Or(n.x), y := input.y.Or(n.y),
       color := input.color.Or(n.color), shape := input.shape.Or(n.shape),
       size := input.size.Or(n.size), data := input.data.Or(n.data))
  }

  /**
   * updateNode: "Node not found" with nothing changed, or the merged node saved
   * and one Updated change carrying it published to the node's board.
   */
  function UpdateNode(s: Server, id: Id, input: UpdateNodeInput): (r: Reply<Node>)
    ensures id !in s.nodes <==> r.result.Err?
    ensures id !in s.nodes ==> r == Reply(s, Err(NodeNotFound))
    ensures id in s.nodes ==>
      && r.result.value == MergeNode(s.nodes[id], input)
      && r.server.nodes == s.nodes[id := r.result.value]
      && r.server.edges == s.edges && r.server.boards == s.boards && r.server.users == s.users
      && PublishedNode(s.bus, r.server.bus, s.nodes[id].boardId, NodeChange(Some(r.result.value), id, Updated))
  {
    match GetNode(s, id)
    case Err(msg) => Reply(s, Err(msg))
    case Ok(n) =>
      var m := MergeNode(n, input);
      var s' := s.(nodes := s.nodes[id := m]);
      Reply(s'.(bus := PublishNodeChange(s'.bus, m.boardId, NodeChange(Some(m), id, Updated))), Ok(m))
  }

  /**
   * deleteNode: "Node not found" with nothing changed, or the node and every
   * edge touching it removed, other edges untouched, and a single Deleted node
   * change (no node, the deleted id) published to the node's board; the
   * cascaded edges produce no edge change.
   */
  function DeleteNode(s: Server, id: Id): (r: Reply<bool>)
    ensures id !in s.nodes <==> r.result.Err?
    ensures id !in s.nodes ==> r == Reply(s, Err(NodeNotFound))
    ensures id in s.nodes ==>
      && r.result == Ok(true)
      && r.server.nodes == s.nodes - {id}
      && (forall k :: k in r.server.edges <==> k in s.edges && !EdgeService.Touches(s.edges[k], id))
      && (forall k :: k in r.server.edges ==> r.server.edges[k] == s.edges[k])
      && r.server.boards == s.boards && r.server.users == s.users
      && PublishedNode(s.bus, r.server.bus, s.nodes[id].boardId, NodeChange(None, id, Deleted))
  {
    match GetNode(s, id)
    case Err(msg) => Reply(s, Err(msg))
    case Ok(n) =>
      var s1 := EdgeService.DeleteEdgesByNode(s, id);
      var s2 := s1.(nodes := s1.nodes - {id});
      Reply(s2.(bus := PublishNodeChange(s2.bus, n.boardId, NodeChange(None, id, Deleted))), Ok(true))
  }

  /** deleteNodesByBoardId: removes exactly the board's nodes; edges and sinks untouched. */
  function DeleteNodesByBoardId(s: Server, boardId: Id): (r: Server)
    ensures forall k :: k in r.nodes <==> k in s.nodes && s.nodes[k].boardId != boardId
    ensures forall k :: k in r.nodes ==> r.nodes[k] == s.nodes[k]
    ensures r.edges == s.edges && r.boards == s.boards && r.users == s.users && r.bus == s.bus
  {
    s.(nodes := map k | k in s.nodes && s.nodes[k].boardId != boardId :: s.nodes[k])
  }

  /** An update input that sets nothing but the layout fields. */
  predicate LayoutOnly(input: UpdateNodeInput)
  {
    input.(width := None, height := None, fontSize := None, bold := None, italic := None) == EmptyNodeUpdate
  }

  /**
   * An update carrying only width, height, font size, bold or italic leaves the
   * stored node exactly as it was, yet still publishes an Updated change.
   */
  lemma LayoutOnlyUpdateIsLost(s: Server, id: Id, input: UpdateNodeInput)
    requires id in s.nodes && LayoutOnly(input)
    ensures UpdateNode(s, id, input).server.nodes == s.nodes
    ensures UpdateNode(s, id, input).result == Ok(s.nodes[id])
    ensures PublishedNode(s.bus, UpdateNode(s, id, input).server.bus, s.nodes[id].boardId,
                          NodeChange(Some(s.nodes[id]), id, Updated))
  {
    var n := s.nodes[id];
    assert MergeNode(n, input) == n;
    assert s.nodes[id := n] == s.nodes;
  }

  /** Updating a node twice with the same input stores what updating it once stores. */
  lemma UpdateNodeIdempotent(s: Server, id: Id, input: UpdateNodeInput)
    ensures UpdateNode(UpdateNode(s, id, input).server, id, input).server.nodes
         == UpdateNode(s, id, input).server.nodes
  {
  }

  /**
   * Deleting a node just created restores the node store, and removes from the
   * edge store only edges that already pointed at the new id.
   */
  lemma DeleteUndoesCreate(s: Server, input: CreateNodeInput, createdBy: Option<User>, freshId: Id)
    requires freshId !in s.nodes
    requires forall k :: k in s.edges ==> !EdgeService.Touches(s.edges[k], freshId)
    ensures var t := DeleteNode(CreateNode(s, input, createdBy, freshId).server, freshId).server;
      t.nodes == s.nodes && t.edges == s.edges && t.boards == s.boards
  {
    var t1 := CreateNode(s, input, createdBy, freshId).server;
    var t := DeleteNode(t1, freshId).server;
    assert t.nodes == s.nodes;
    assert t.edges == s.edges;
  }

  /** Cascading deletion never leaves an edge pointing at the deleted node. */
  lemma DeleteNodeWellFormed(s: Server, id: Id)
    requires WellFormed(s)
    ensures WellFormed(DeleteNode(s, id).server)
  {
  }

  /** Creating and updating nodes keep the server well formed. */
  lemma CreateUpdateNodeWellFormed(s: Server, input: CreateNodeInput, createdBy: Option<User>,
                                   freshId: Id, id: Id, update: UpdateNodeInput)
    requires WellFormed(s) && freshId !in s.nodes
    ensures WellFormed(CreateNode(s, input, createdBy, freshId).server)
    ensures WellFormed(UpdateNode(s, id, update).server)
  {
  }
}
