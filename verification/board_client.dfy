/**
 * board.js: decoding GraphQL results, loading a board onto the canvas with
 * default styling, the gestures that send mutations, writing the server's
 * answer back, and deleting the selection.
 */
module BoardClient {
  import opened Wrappers
  import opened Entities
  import opened Canvas

  datatype GraphQLError = GraphQLError(message: string)

  /** The parsed JSON body of a GraphQL response. */
  datatype GraphQLResponse<+D> = GraphQLResponse(data: Option<D>, errors: Option<seq<GraphQLError>>)

  /** What a script throws: an Error with a message, or the TypeError of reading a property of undefined. */
  datatype Thrown = ErrorThrown(message: string) | TypeErrorThrown

  /** How a call completes: with its value, or by throwing. */
  datatype Completion<+T> = Normal(value: T) | Abrupt(thrown: Thrown)

  /**
   * graphqlRequest, after the body is parsed: an `errors` member makes it
   * throw an Error carrying the first error's message (a TypeError when the
   * list is empty); without one it returns `data`, which may be undefined.
   */
  function GraphqlRequest<D>(response: GraphQLResponse<D>): (r: Completion<Option<D>>)
    ensures r.Normal? <==> response.errors.None?
    ensures r.Normal? ==> r.value == response.data
    ensures response.errors.Some? && |response.errors.value| > 0 ==>
      r == Abrupt(ErrorThrown(response.errors.value[0].message))
    ensures response.errors.Some? && |response.errors.value| == 0 ==> r == Abrupt(TypeErrorThrown)
  {
    match response.errors
    case Some(errors) =>
      if |errors| > 0 then Abrupt(ErrorThrown(errors[0].message)) else Abrupt(TypeErrorThrown)
    case None => Normal(response.data)
  }

  /** A result built from a server outcome decodes back to it: the value, or the first error's message. */
  lemma GraphqlRequestRoundTrip<D>(outcome: Result<D>, more: seq<GraphQLError>)
    ensures outcome.Ok? ==> GraphqlRequest(GraphQLResponse(Some(outcome.value), None)) == Normal(Some(outcome.value))
    ensures outcome.Err? ==>
      GraphqlRequest<D>(GraphQLResponse(None, Some([GraphQLError(outcome.error)] + more)))
        == Abrupt(ErrorThrown(outcome.error))
  {
  }

  // ---------------------------------------------------------------------
  // Loading a board

  /** A row of the `nodes` query. */
  datatype NodeRow = NodeRow(id: Id, text: Option<string>, x: Option<real>, y: Option<real>,
                             color: Option<string>, shape: Option<string>, size: Option<int>)

  /** A row of the `edges` query. */
  datatype EdgeRow = EdgeRow(id: Id, source: Id, target: Id, text: Option<string>, color: Option<string>)

  const DefaultNodeColor := "#3498db"
  const DefaultNodeShape := "ellipse"
  const DefaultNodeSize := 50
  const DefaultEdgeColor := "#95a5a6"

  predicate TruthyString(s: Option<string>) { s.Some? && s.value != "" }
  predicate TruthyNumber(n: Option<int>) { n.Some? && n.value != 0 }

  /** `s || default` on a string: absent and empty are falsy. */
  function StringOr(s: Option<string>, default: string): (r: string)
    ensures TruthyString(s) ==> r == s.value
    ensures !TruthyString(s) ==> r == default
  {
    if TruthyString(s) then s.value else default
  }

  /**
   * A node as loadBoardData adds it: a falsy colour, shape or size is replaced
   * by '#3498db', 'ellipse' or 50 and a truthy one is kept; the label and
   * position are taken as they are, and width and height are left unset.
   */
  function LoadedNode(row: NodeRow): (n: CyNode)
    ensures n.color == Some(if TruthyString(row.color) then row.color.value else DefaultNodeColor)
    ensures n.shape == Some(if TruthyString(row.shape) then row.shape.value else DefaultNodeShape)
    ensures n.size == Some(if TruthyNumber(row.size) then row.size.value else DefaultNodeSize)
    ensures TruthyString(n.color) && TruthyString(n.shape) && TruthyNumber(n.size)
    ensures n.text == row.text && n.x == row.x && n.y == row.y
    ensures n.width.None? && n.height.None?
  {
    CyNode(row.text, Some(StringOr(row.color, DefaultNodeColor)), Some(StringOr(row.shape, DefaultNodeShape)),
           Some(if TruthyNumber(row.size) then row.size.value else DefaultNodeSize), None, None, row.x, row.y)
  }

  /** An edge as loadBoardData adds it: a falsy label becomes '' and a falsy colour '#95a5a6'. */
  function LoadedEdge(row: EdgeRow): (e: CyEdge)
    ensures e.text == (if TruthyString(row.text) then row.text.value else "")
    ensures e.color == Some(if TruthyString(row.color) then row.color.value else DefaultEdgeColor)
    ensures e.source == row.source && e.target == row.target
  {
    CyEdge(row.source, row.target, StringOr(row.text, ""), Some(StringOr(row.color, DefaultEdgeColor)))
  }

  /** Loading a node already styled by a load changes nothing: the defaults are a fixed point. */
  lemma LoadedNodeStable(row: NodeRow)
    ensures var n := LoadedNode(row);
      LoadedNode(NodeRow(row.id, n.text, n.x, n.y, n.color, n.shape, n.size)) == n
  {
  }

  predicate ListsNode(rows: seq<NodeRow>, id: Id)
  {
    exists i :: 0 <= i < |rows| && rows[i].id == id
  }

  predicate ListsEdge(rows: seq<EdgeRow>, id: Id)
  {
    exists i :: 0 <= i < |rows| && rows[i].id == id
  }

  /** `cy.add` for each node row in turn. */
  function AddNodes(g: Graph, rows: seq<NodeRow>): (r: Graph)
    ensures r.edges == g.edges
    ensures forall k :: k in r.nodes <==> k in g.nodes || ListsNode(rows, k)
    ensures forall k :: k in g.nodes && !ListsNode(rows, k) ==> r.nodes[k] == g.nodes[k]
    ensures forall i :: 0 <= i < |rows| && !ListsNode(rows[i + 1..], rows[i].id) ==>
      rows[i].id in r.nodes && r.nodes[rows[i].id] == LoadedNode(rows[i])
    decreases |rows|
  {
    if |rows| == 0 then g
    else
      var r := AddNodes(g.(nodes := g.nodes[rows[0].id := LoadedNode(rows[0])]), rows[1..]);
      assert forall k :: ListsNode(rows, k) <==> k == rows[0].id || ListsNode(rows[1..], k) by {
        forall k | ListsNode(rows, k) ensures k == rows[0].id || ListsNode(rows[1..], k) {
          var i :| 0 <= i < |rows| && rows[i].id == k;
          if i > 0 { assert rows[1..][i - 1].id == k; }
        }
        forall k | ListsNode(rows[1..], k) ensures ListsNode(rows, k) {
          var i :| 0 <= i < |rows[1..]| && rows[1..][i].id == k;
          assert rows[i + 1].id == k;
        }
      }
      forall i | 0 < i < |rows| && !ListsNode(rows[i + 1..], rows[i].id)
        ensures rows[i].id in r.nodes && r.nodes[rows[i].id] == LoadedNode(rows[i])
      {
        assert rows[1..][i - 1] == rows[i];
        assert rows[1..][i - 1 + 1..] == rows[i + 1..];
      }
      assert rows[1..] == rows[0 + 1..];
      r
  }

  /** `cy.add` for each edge row in turn. */
  function AddEdges(g: Graph, rows: seq<EdgeRow>): (r: Graph)
    ensures r.nodes == g.nodes
    ensures forall k :: k in r.edges <==> k in g.edges || ListsEdge(rows, k)
    ensures forall k :: k in g.edges && !ListsEdge(rows, k) ==> r.edges[k] == g.edges[k]
    ensures forall i :: 0 <= i < |rows| && !ListsEdge(rows[i + 1..], rows[i].id) ==>
      rows[i].id in r.edges && r.edges[rows[i].id] == LoadedEdge(rows[i])
    decreases |rows|
  {
    if |rows| == 0 then g
    else
      var r := AddEdges(g.(edges := g.edges[rows[0].id := LoadedEdge(rows[0])]), rows[1..]);
      assert forall k :: ListsEdge(rows, k) <==> k == rows[0].id || ListsEdge(rows[1..], k) by {
        forall k | ListsEdge(rows, k) ensures k == rows[0].id || ListsEdge(rows[1..], k) {
          var i :| 0 <= i < |rows| && rows[i].id == k;
          if i > 0 { assert rows[1..][i - 1].id == k; }
        }
        forall k | ListsEdge(rows[1..], k) ensures ListsEdge(rows, k) {
          var i :| 0 <= i < |rows[1..]| && rows[1..][i].id == k;
          assert rows[i + 1].id == k;
        }
      }
      forall i | 0 < i < |rows| && !ListsEdge(rows[i + 1..], rows[i].id)
        ensures rows[i].id in r.edges && r.edges[rows[i].id] == LoadedEdge(rows[i])
      {
        assert rows[1..][i - 1] == rows[i];
        assert rows[1..][i - 1 + 1..] == rows[i + 1..];
      }
      assert rows[1..] == rows[0 + 1..];
      r
  }

  /** What loadBoardData leaves on the canvas, and the error it alerts, if any. */
  datatype LoadResult = LoadResult(graph: Graph, alert: Option<Thrown>)

  /**
   * loadBoardData: both queries must answer before anything is added; if
   * either throws, nothing is added and the error is alerted. Then every node
   * is added, then every edge; a missing `nodes` or `edges` list is a
   * TypeError that stops the load at that point and is alerted.
   */
  function LoadBoardData(g: Graph, nodes: GraphQLResponse<Option<seq<NodeRow>>>,
                         edges: GraphQLResponse<Option<seq<EdgeRow>>>): (r: LoadResult)
    ensures GraphqlRequest(nodes).Abrupt? || GraphqlRequest(edges).Abrupt? ==> r.graph == g && r.alert.Some?
    ensures r.alert.None? <==>
      && nodes.errors.None? && nodes.data.Some? && nodes.data.value.Some?
      && edges.errors.None? && edges.data.Some? && edges.data.value.Some?
    ensures r.alert.None? ==>
      r.graph == AddEdges(AddNodes(g, nodes.data.value.value), edges.data.value.value)
    ensures nodes.errors.None? && edges.errors.None? && (nodes.data.None? || nodes.data.value.None?) ==>
      r == LoadResult(g, Some(TypeErrorThrown))
    ensures nodes.errors.None? && nodes.data.Some? && nodes.data.value.Some? && edges.errors.None?
            && (edges.data.None? || edges.data.value.None?) ==>
      r == LoadResult(AddNodes(g, nodes.data.value.value), Some(TypeErrorThrown))
  {
    match (GraphqlRequest(nodes), GraphqlRequest(edges))
    case (Abrupt(t), _) => LoadResult(g, Some(t))
    case (_, Abrupt(t)) => LoadResult(g, Some(t))
    case (Normal(nodesData), Normal(edgesData)) =>
      if nodesData.None? || nodesData.value.None? then LoadResult(g, Some(TypeErrorThrown))
      else
        var withNodes := AddNodes(g, nodesData.value.value);
        if edgesData.None? || edgesData.value.None? then LoadResult(withNodes, Some(TypeErrorThrown))
        else LoadResult(AddEdges(withNodes, edgesData.value.value), None)
  }

  // ---------------------------------------------------------------------
  // Gestures

  /**
   * The context-menu connect gesture: after a right-tap on the source, a tap
   * on a node creates an edge from the source to it in the default grey,
   * unless it is the source itself.
   */
  function ConnectTo(boardId: Id, sourceId: Id, targetId: Id): (req: Option<Request>)
    ensures req.Some? <==> sourceId != targetId
    ensures req.Some? ==>
      req.value == CreateEdgeRequest(CreateEdgeInput(boardId, sourceId, targetId, None, Some(DefaultEdgeColor), None))
  {
    if targetId != sourceId
    then Some(CreateEdgeRequest(CreateEdgeInput(boardId, sourceId, targetId, None, Some(DefaultEdgeColor), None)))
    else None
  }

  /**
   * The double-tap rename: the label typed into the prompt is sent, alone,
   * exactly when the prompt was not cancelled and the label differs from the
   * node's current one.
   */
  function Rename(nodeId: Id, current: Option<string>, entered: Option<string>): (req: Option<Request>)
    ensures req.Some? <==> entered.Some? && entered != current
    ensures req.Some? ==> req.value == UpdateNodeRequest(nodeId, EmptyNodeUpdate.(text := entered))
  {
    if entered.Some? && entered != current then Some(UpdateNodeRequest(nodeId, EmptyNodeUpdate.(text := entered)))
    else None
  }

  /** The drag-end gesture: the node's new position is sent, alone. */
  function DragEnd(nodeId: Id, x: real, y: real): (req: Request)
    ensures req.UpdateNodeRequest? && req.nodeId == nodeId
    ensures req.input.(x := None, y := None) == EmptyNodeUpdate
    ensures req.input.x == Some(x) && req.input.y == Some(y)
  {
    UpdateNodeRequest(nodeId, EmptyNodeUpdate.(x := Some(x), y := Some(y)))
  }

  /**
   * The end of updateNode in board.js: of the node the server returns, only a
   * truthy label is written back to the canvas node; a thrown error, a missing
   * node, or a falsy label leaves the canvas as it was.
   */
  function UpdateNodeWriteBack(g: Graph, nodeId: Id, response: GraphQLResponse<Option<NodeRow>>): (g': Graph)
    ensures g'.edges == g.edges && g'.nodes.Keys == g.nodes.Keys
    ensures forall k :: k in g.nodes && k != nodeId ==> g'.nodes[k] == g.nodes[k]
    ensures nodeId in g.nodes ==> g'.nodes[nodeId].(text := g.nodes[nodeId].text) == g.nodes[nodeId]
    ensures g' != g ==>
      && response.errors.None? && response.data.Some? && response.data.value.Some?
      && TruthyString(response.data.value.value.text)
      && g'.nodes[nodeId].text == response.data.value.value.text
    ensures nodeId in g.nodes && response.errors.None? && response.data.Some? && response.data.value.Some?
            && TruthyString(response.data.value.value.text) ==>
      g'.nodes[nodeId].text == response.data.value.value.text
  {
    match GraphqlRequest(response)
    case Abrupt(_) => g
    case Normal(data) =>
      if data.None? || data.value.None? then g
      else
        var row := data.value.value;
        if TruthyString(row.text) && nodeId in g.nodes
        then g.(nodes := g.nodes[nodeId := g.nodes[nodeId].(text := row.text)])
        else g
  }

  // ---------------------------------------------------------------------
  // Deleting the selection

  datatype Element = NodeElement(id: Id) | EdgeElement(id: Id)

  function DeleteRequest(e: Element): Request
  {
    match e
    case NodeElement(id) => DeleteNodeRequest(id)
    case EdgeElement(id) => DeleteEdgeRequest(id)
  }

  /** One delete request per selected element, in selection order. */
  function DeleteRequests(selected: seq<Element>): (reqs: seq<Request>)
    ensures |reqs| == |selected|
    ensures forall i :: 0 <= i < |selected| ==>
      (selected[i].NodeElement? ==> reqs[i] == DeleteNodeRequest(selected[i].id))
      && (selected[i].EdgeElement? ==> reqs[i] == DeleteEdgeRequest(selected[i].id))
  {
    if |selected| == 0 then [] else [DeleteRequest(selected[0])] + DeleteRequests(selected[1..])
  }

  /** The edge is removed with the selection: selected itself, or attached to a selected node. */
  predicate EdgeRemoved(e: CyEdge, id: Id, selected: seq<Element>)
  {
    EdgeElement(id) in selected || NodeElement(e.source) in selected || NodeElement(e.target) in selected
  }

  /**
   * `selected.remove()`: the selected nodes and edges leave the canvas, and
   * with each node every edge attached to it; everything else stays as it was.
   */
  function RemoveSelection(g: Graph, selected: seq<Element>): (g': Graph)
    ensures forall k :: k in g'.nodes <==> k in g.nodes && NodeElement(k) !in selected
    ensures forall k :: k in g'.nodes ==> g'.nodes[k] == g.nodes[k]
    ensures forall k :: k in g'.edges <==> k in g.edges && !EdgeRemoved(g.edges[k], k, selected)
    ensures forall k :: k in g'.edges ==> g'.edges[k] == g.edges[k]
  {
    Graph(map k | k in g.nodes && NodeElement(k) !in selected :: g.nodes[k],
          map k | k in g.edges && !EdgeRemoved(g.edges[k], k, selected) :: g.edges[k])
  }

  /** Every edge of the canvas joins two nodes on the canvas. */
  predicate EdgesAttached(g: Graph)
  {
    forall k :: k in g.edges ==> g.edges[k].source in g.nodes && g.edges[k].target in g.nodes
  }

  /** Because removing a node takes its edges with it, removing a selection never leaves an edge dangling. */
  lemma RemoveSelectionKeepsEdgesAttached(g: Graph, selected: seq<Element>)
    requires EdgesAttached(g)
    ensures EdgesAttached(RemoveSelection(g, selected))
  {
  }

  /**
   * deleteNode and deleteEdge: the mutation's failure is caught and logged, so
   * awaiting either call never throws, whatever the server answered.
   */
  function AwaitDelete(outcome: Completion<Option<bool>>): (c: Completion<()>)
    ensures c.Normal?
  {
    match outcome
    case Normal(_) => Normal(())
    case Abrupt(_) => Normal(())
  }

  /**
   * The `for ... of` loop of deleteSelected, given the outcome of each request
   * in turn: it would stop at the first awaited call that throws, but since
   * none does it always runs to the end.
   */
  function DeleteLoop(outcomes: seq<Completion<Option<bool>>>): (c: Completion<()>)
    ensures c.Normal?
    decreases |outcomes|
  {
    if |outcomes| == 0 then Normal(())
    else
      match AwaitDelete(outcomes[0])
      case Abrupt(thrown) => Abrupt(thrown)
      case Normal(_) => DeleteLoop(outcomes[1..])
  }

  /**
   * deleteSelected, given the outcome of each delete request: one delete is
   * sent per selected element, and the selection is removed from the canvas
   * only if the loop finishes. Whatever the outcomes, it does, so the canvas
   * after it never depends on how the requests fared.
   */
  function DeleteSelected(g: Graph, selected: seq<Element>, outcomes: seq<Completion<Option<bool>>>)
    : (r: (Graph, seq<Request>))
    requires |outcomes| == |selected|
    ensures r.1 == DeleteRequests(selected)
    ensures r.0 == RemoveSelection(g, selected)
  {
    match DeleteLoop(outcomes)
    case Normal(_) => (RemoveSelection(g, selected), DeleteRequests(selected))
    case Abrupt(_) => (g, DeleteRequests(selected))
  }
}
