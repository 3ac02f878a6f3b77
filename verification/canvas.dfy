/**
 * The browser side's view of a board: the data of the Cytoscape elements the
 * scripts read and write, and the GraphQL requests they send.
 */
module Canvas {
  import opened Wrappers
  import opened Entities

  /** The data of a node element, as the scripts read it with `node.data(...)`, and its position. */
  datatype CyNode = CyNode(
    text: Option<string>,
    color: Option<string>,
    shape: Option<string>,
    size: Option<int>,
    width: Option<int>,
    height: Option<int>,
    x: Option<real>,
    y: Option<real>)

  datatype CyEdge = CyEdge(source: Id, target: Id, text: string, color: Option<string>)

  /** The elements on the canvas, by element id. */
  datatype Graph = Graph(nodes: map<Id, CyNode>, edges: map<Id, CyEdge>)

  const EmptyGraph := Graph(map[], map[])

  /** A mutation the scripts send, with the variables they send with it. */
  datatype Request =
    | UpdateNodeRequest(nodeId: Id, input: UpdateNodeInput)
    | CreateEdgeRequest(edgeInput: CreateEdgeInput)
    | DeleteNodeRequest(deleteNodeId: Id)
    | DeleteEdgeRequest(deleteEdgeId: Id)
    | UpdateCursorRequest(boardId: Id, x: real, y: real)

  /** Cytoscape's zoom level, which is always positive. */
  type Zoom = z: real | z > 0.0 witness 1.0

  datatype Point = Point(x: real, y: real)
}
