/**
 * The scripts' requests carried out by the server services (the GraphQL
 * resolvers only delegate), and what the two sides together do.
 */
module RoundTrips {
  import opened Wrappers
  import opened Entities
  import opened Repositories
  import opened Canvas
  import NodeService
  import EdgeService
  import NodeResize
  import BoardClient

  predicate ServerHandles(req: Request)
  {
    req.UpdateNodeRequest? || req.DeleteNodeRequest? || req.DeleteEdgeRequest?
  }

  /** The mutation a node-update or delete request invokes; an update reports success as `true`. */
  function Execute(s: Server, req: Request): (r: Reply<bool>)
    requires ServerHandles(req)
    ensures req.UpdateNodeRequest? ==>
      r.server == NodeService.UpdateNode(s, req.nodeId, req.input).server
      && r.result.Ok? == NodeService.UpdateNode(s, req.nodeId, req.input).result.Ok?
    ensures req.DeleteNodeRequest? ==> r == NodeService.DeleteNode(s, req.deleteNodeId)
    ensures req.DeleteEdgeRequest? ==> r == EdgeService.DeleteEdge(s, req.deleteEdgeId)
  {
    match req
    case UpdateNodeRequest(id, input) =>
      var reply := NodeService.UpdateNode(s, id, input);
      Reply(reply.server, if reply.result.Ok? then Ok(true) else Err(reply.result.error))
    case DeleteNodeRequest(id) => NodeService.DeleteNode(s, id)
    case DeleteEdgeRequest(id) => EdgeService.DeleteEdge(s, id)
  }

  /** Requests awaited one after the other: the final server and each request's result. */
  function ExecuteAll(s: Server, reqs: seq<Request>): (r: (Server, seq<Result<bool>>))
    requires forall i :: 0 <= i < |reqs| ==> ServerHandles(reqs[i])
    ensures |r.1| == |reqs|
    decreases |reqs|
  {
    if |reqs| == 0 then (s, [])
    else
      var first := Execute(s, reqs[0]);
      var rest := ExecuteAll(first.server, reqs[1..]);
      (rest.0, [first.result] + rest.1)
  }

  /**
   * The outcome the scripts see for a server result: the value, or an Error
   * carrying the service exception's message, assuming the message is passed
   * on as the GraphQL error message.
   */
  function Outcome(r: Result<bool>): (c: BoardClient.Completion<Option<bool>>)
    ensures r.Ok? ==> c == BoardClient.GraphqlRequest(BoardClient.GraphQLResponse(Some(r.value), None))
    ensures r.Err? ==> c == BoardClient.GraphqlRequest<bool>(BoardClient.GraphQLResponse(None, Some([BoardClient.GraphQLError(r.error)])))
  {
    match r
    case Ok(v) => BoardClient.Normal(Some(v))
    case Err(msg) => BoardClient.Abrupt(BoardClient.ErrorThrown(msg))
  }

  function Outcomes(results: seq<Result<bool>>): (cs: seq<BoardClient.Completion<Option<bool>>>)
    ensures |cs| == |results|
  {
    seq(|results|, i requires 0 <= i < |results| => Outcome(results[i]))
  }

  /**
   * The size a resize gesture sends never reaches storage: whatever the
   * gesture, the server's nodes are the same after its request as before.
   */
  lemma ResizeIsNeverStored(r: NodeResize.Resize, g: Graph, s: Server)
    requires r.Resizing?
    ensures var req := NodeResize.ResizeEnd(r, g).1.value;
      Execute(s, req).server.nodes == s.nodes
  {
    var req := NodeResize.ResizeEnd(r, g).1.value;
    if req.nodeId in s.nodes {
      NodeService.LayoutOnlyUpdateIsLost(s, req.nodeId, req.input);
    }
  }

  /** Edges made by the connect gesture never join a node to itself. */
  lemma ConnectMakesNoSelfLoop(s: Server, boardId: Id, sourceId: Id, targetId: Id,
                               createdBy: Option<User>, freshId: Id)
    requires freshId !in s.edges
    requires BoardClient.ConnectTo(boardId, sourceId, targetId).Some?
    ensures var req := BoardClient.ConnectTo(boardId, sourceId, targetId).value;
      var stored := EdgeService.CreateEdge(s, req.edgeInput, createdBy, freshId).server.edges[freshId];
      stored.source == sourceId && stored.target == targetId && stored.source != stored.target
  {
  }

  /** The row the updateNode mutation's selection set returns for a stored node. */
  function RowOf(n: Node): BoardClient.NodeRow
  {
    BoardClient.NodeRow(n.id, n.text, n.x, n.y, n.color, n.shape, n.size)
  }

  /** The response the scripts receive for a successful updateNode. */
  function UpdatedResponse(n: Node): BoardClient.GraphQLResponse<Option<BoardClient.NodeRow>>
  {
    BoardClient.GraphQLResponse(Some(Some(RowOf(n))), None)
  }

  /**
   * A rename is stored as typed, and the canvas shows it once the response is
   * written back, provided the new label is not empty. Renaming to the empty
   * label stores "" while the canvas keeps showing the old label.
   */
  lemma RenameRoundTrip(s: Server, g: Graph, nodeId: Id, entered: string)
    requires nodeId in s.nodes && nodeId in g.nodes
    requires BoardClient.Rename(nodeId, g.nodes[nodeId].text, Some(entered)).Some?
    ensures var req := BoardClient.Rename(nodeId, g.nodes[nodeId].text, Some(entered)).value;
      var reply := NodeService.UpdateNode(s, nodeId, req.input);
      var g' := BoardClient.UpdateNodeWriteBack(g, nodeId, UpdatedResponse(reply.result.value));
      && reply.server.nodes[nodeId].text == Some(entered)
      && (entered != "" ==> g'.nodes[nodeId].text == Some(entered))
      && (entered == "" ==> g' == g)
  {
  }

  /** A drag stores the new position and leaves the node's other fields alone. */
  lemma DragRoundTrip(s: Server, nodeId: Id, x: real, y: real)
    requires nodeId in s.nodes
    ensures var reply := NodeService.UpdateNode(s, nodeId, BoardClient.DragEnd(nodeId, x, y).input);
      reply.server.nodes[nodeId] == s.nodes[nodeId].(x := Some(x), y := Some(y))
  {
  }

  /**
   * Selecting a node together with an edge attached to it: deleting the node
   * already removes the edge on the server, so the edge's own delete then
   * fails with "Edge not found". The failure is swallowed and both elements
   * leave the canvas anyway.
   */
  lemma DeleteNodeWithItsEdge(s: Server, g: Graph, n: Id, e: Id)
    requires n in s.nodes && e in s.edges && EdgeService.Touches(s.edges[e], n)
    requires n in g.nodes && e in g.edges
    ensures var sel := [BoardClient.NodeElement(n), BoardClient.EdgeElement(e)];
      var reqs := BoardClient.DeleteRequests(sel);
      var (s', results) := ExecuteAll(s, reqs);
      var (g', _) := BoardClient.DeleteSelected(g, sel, Outcomes(results));
      && results == [Ok(true), Err(EdgeService.EdgeNotFound)]
      && n !in s'.nodes && e !in s'.edges
      && n !in g'.nodes && e !in g'.edges
  {
    var sel := [BoardClient.NodeElement(n), BoardClient.EdgeElement(e)];
    var reqs := BoardClient.DeleteRequests(sel);
    assert reqs == [DeleteNodeRequest(n), DeleteEdgeRequest(e)];
    var s1 := NodeService.DeleteNode(s, n).server;
    assert e !in s1.edges;
    assert reqs[1..] == [DeleteEdgeRequest(e)];
    assert Execute(s1, DeleteEdgeRequest(e)) == Reply(s1, Err(EdgeService.EdgeNotFound));
    var tail := [DeleteEdgeRequest(e)];
    assert tail[1..] == [];
    assert ExecuteAll(s1, tail[1..]) == (s1, []);
    assert ExecuteAll(s1, tail) == (s1, [Err(EdgeService.EdgeNotFound)] + []);
  }
}
