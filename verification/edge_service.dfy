/** EdgeService: lookup, creation, partial update and deletion of edges. */
module EdgeService {
  import opened Wrappers
  import opened Entities
  import opened Subscriptions
  import opened Repositories

  const EdgeNotFound := "Edge not found"

  /** The edge starts or ends at `nodeId`: what `deleteBySourceOrTarget(nodeId, nodeId)` matches. */
  predicate Touches(e: Edge, nodeId: Id)
  {
    e.source == nodeId || e.target == nodeId
  }

  function GetEdge(s: Server, id: Id): (r: Result<Edge>)
    ensures r.Ok? <==> id in s.edges
    ensures r.Ok? ==> r.value == s.edges[id]
    ensures r.Err? ==> r.error == EdgeNotFound
  {
    if id in s.edges then Ok(s.edges[id]) else Err(EdgeNotFound)
  }

  /** The edge `createEdge` builds: every input field copied verbatim. */
  function NewEdge(input: CreateEdgeInput, id: Id, createdBy: Option<User>): Edge
  {
    Edge(id, input.boardId, input.source, input.target, input.text, input.color, input.lineStyle, createdBy)
  }

  /**
   * createEdge: stores the edge under a fresh id and publishes one Created
   * change to the board named in the input. Endpoints are not checked.
   */
  function CreateEdge(s: Server, input: CreateEdgeInput, createdBy: Option<User>, freshId: Id): (r: Reply<Edge>)
    requires freshId !in s.edges
    ensures r.result.Ok?
    ensures var e := r.result.value;
      && e.id == freshId && e.boardId == input.boardId
      && e.source == input.source && e.target == input.target
      && e.text == input.text && e.color == input.color && e.lineStyle == input.lineStyle
      && e.createdBy == createdBy
    ensures r.server.edges.Keys == s.edges.Keys + {freshId}
    ensures r.server.edges[freshId] == r.result.value
    ensures forall k :: k in s.edges ==> r.server.edges[k] == s.edges[k]
    ensures r.server.nodes == s.nodes && r.server.boards == s.boards && r.server.users == s.users
    ensures PublishedEdge(s.bus, r.server.bus, input.boardId, EdgeChange(Some(r.result.value), freshId, Created))
  {
    var e := NewEdge(input, freshId, createdBy);
    var s' := s.(edges := s.edges[freshId := e]);
    Reply(s'.(bus := PublishEdgeChange(s'.bus, input.boardId, EdgeChange(Some(e), freshId, Created))), Ok(e))
  }

  /** The partial update of updateEdge: a non-null input field overwrites, a null one keeps. */
  function MergeEdge(e: Edge, input: UpdateEdgeInput): (m: Edge)
    ensures input.text.Some? ==> m.text == input.text
    ensures input.text.None? ==> m.text == e.text
    ensures input.color.Some? ==> m.color == input.color
    ensures input.color.None? ==> m.color == e.color
    ensures input.lineStyle.Some? ==> m.lineStyle == input.lineStyle
    ensures input.lineStyle.None? ==> m.lineStyle == e.lineStyle
    ensures m.(text := e.text, color := e.color, lineStyle := e.lineStyle) == e
  {
    e.(text := input.text.Or(e.text), color := input.color.Or(e.color), lineStyle := input.lineStyle.Or(e.lineStyle))
  }

  /**
   * updateEdge: "Edge not found" with nothing changed, or the merged edge saved
   * and one Updated change published to the edge's own board.
   */
  function UpdateEdge(s: Server, id: Id, input: UpdateEdgeInput): (r: Reply<Edge>)
    ensures id !in s.edges <==> r.result.Err?
    ensures id !in s.edges ==> r == Reply(s, Err(EdgeNotFound))
    ensures id in s.edges ==>
      && r.result.value == MergeEdge(s.edges[id], input)
      && r.server.edges == s.edges[id := r.result.value]
      && r.server.nodes == s.nodes && r.server.boards == s.boards && r.server.users == s.users
      && PublishedEdge(s.bus, r.server.bus, s.edges[id].boardId, EdgeChange(Some(r.result.value), id, Updated))
  {
    match GetEdge(s, id)
    case Err(msg) => Reply(s, Err(msg))
    case Ok(e) =>
      var m := MergeEdge(e, input);
      var s' := s.(edges := s.edges[id := m]);
      Reply(s'.(bus := PublishEdgeChange(s'.bus, m.boardId, EdgeChange(Some(m), id, Updated))), Ok(m))
  }

  /** deleteEdge: "Edge not found" with nothing changed, or that one edge removed and
      a Deleted change without an edge published to its board. */
  function DeleteEdge(s: Server, id: Id): (r: Reply<bool>)
    ensures id !in s.edges <==> r.result.Err?
    ensures id !in s.edges ==> r == Reply(s, Err(EdgeNotFound))
    ensures id in s.edges ==>
      && r.result == Ok(true)
      && r.server.edges == s.edges - {id}
      && r.server.nodes == s.nodes && r.server.boards == s.boards && r.server.users == s.users
      && PublishedEdge(s.bus, r.server.bus, s.edges[id].boardId, EdgeChange(None, id, Deleted))
  {
    match GetEdge(s, id)
    case Err(msg) => Reply(s, Err(msg))
    case Ok(e) =>
      var s' := s.(edges := s.edges - {id});
      Reply(s'.(bus := PublishEdgeChange(s'.bus, e.boardId, EdgeChange(None, id, Deleted))), Ok(true))
  }

  /** deleteEdgesByNode: removes exactly the edges touching the node; publishes nothing. */
  function DeleteEdgesByNode(s: Server, nodeId: Id): (r: Server)
    ensures forall k :: k in r.edges <==> k in s.edges && !Touches(s.edges[k], nodeId)
    ensures forall k :: k in r.edges ==> r.edges[k] == s.edges[k]
    ensures r.nodes == s.nodes && r.boards == s.boards && r.users == s.users && r.bus == s.bus
  {
    s.(edges := map k | k in s.edges && !Touches(s.edges[k], nodeId) :: s.edges[k])
  }

  /** deleteEdgesByBoardId: removes exactly the board's edges; publishes nothing. */
  function DeleteEdgesByBoardId(s: Server, boardId: Id): (r: Server)
    ensures forall k :: k in r.edges <==> k in s.edges && s.edges[k].boardId != boardId
    ensures forall k :: k in r.edges ==> r.edges[k] == s.edges[k]
    ensures r.nodes == s.nodes && r.boards == s.boards && r.users == s.users && r.bus == s.bus
  {
    s.(edges := map k | k in s.edges && s.edges[k].boardId != boardId :: s.edges[k])
  }

  /** Updating an edge twice with the same input stores what updating it once stores. */
  lemma UpdateEdgeIdempotent(s: Server, id: Id, input: UpdateEdgeInput)
    ensures UpdateEdge(UpdateEdge(s, id, input).server, id, input).server.edges
         == UpdateEdge(s, id, input).server.edges
  {
  }

  /** A created edge keeps the server well formed exactly when its endpoints are
      stored nodes of its own board. */
  lemma CreateEdgeWellFormed(s: Server, input: CreateEdgeInput, createdBy: Option<User>, freshId: Id)
    requires WellFormed(s) && freshId !in s.edges
    ensures WellFormed(CreateEdge(s, input, createdBy, freshId).server)
        <==> Attached(s, NewEdge(input, freshId, createdBy))
  {
    var t := CreateEdge(s, input, createdBy, freshId).server;
    if WellFormed(t) {
      assert Attached(t, t.edges[freshId]);
    }
  }

  /** updateEdge and deleteEdge never change an edge's endpoints or board, so
      they keep the server well formed. */
  lemma UpdateDeleteEdgeWellFormed(s: Server, id: Id, input: UpdateEdgeInput)
    requires WellFormed(s)
    ensures WellFormed(UpdateEdge(s, id, input).server)
    ensures WellFormed(DeleteEdge(s, id).server)
  {
  }
}
