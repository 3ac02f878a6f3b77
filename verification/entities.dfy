/**
 * The records the server stores and publishes: documents, GraphQL inputs and
 * change events. Every Java field that may be null is an `Option`;
 * creation and modification timestamps are not modelled.
 */
module Entities {
  import opened Wrappers

  /** Document identifiers, assigned by the database.
      (`label` is a Dafny keyword: the `label` field of nodes, edges and their
      inputs is called `text` throughout this model.) */
  type Id = string

  /** Permission is a Java enum whose constants are not part of this model: it is kept by name. */
  type Permission = string

  datatype User = User(
    id: Id,
    username: string,
    email: string,
    password: string,
    roles: set<string>,
    enabled: bool)

  datatype Collaborator = Collaborator(user: User, permission: Permission)

  datatype Board = Board(
    id: Id,
    title: Option<string>,
    description: Option<string>,
    owner: Option<User>,
    collaborators: seq<Collaborator>)

  /** A mind-map node; `x` and `y` are doubles that the server only copies. */
  datatype Node = Node(
    id: Id,
    boardId: Id,
    text: Option<string>,
    x: Option<real>,
    y: Option<real>,
    color: Option<string>,
    shape: Option<string>,
    size: Option<int>,
    width: Option<int>,
    height: Option<int>,
    fontSize: Option<int>,
    bold: Option<bool>,
    italic: Option<bool>,
    data: Option<string>,
    createdBy: Option<User>)

  datatype Edge = Edge(
    id: Id,
    boardId: Id,
    source: Id,
    target: Id,
    text: Option<string>,
    color: Option<string>,
    lineStyle: Option<string>,
    createdBy: Option<User>)

  datatype CreateNodeInput = CreateNodeInput(
    boardId: Id,
    text: Option<string>,
    x: Option<real>,
    y: Option<real>,
    color: Option<string>,
    shape: Option<string>,
    size: Option<int>,
    width: Option<int>,
    height: Option<int>,
    fontSize: Option<int>,
    bold: Option<bool>,
    italic: Option<bool>,
    data: Option<string>)

  datatype UpdateNodeInput = UpdateNodeInput(
    text: Option<string>,
    x: Option<real>,
    y: Option<real>,
    color: Option<string>,
    shape: Option<string>,
    size: Option<int>,
    width: Option<int>,
    height: Option<int>,
    fontSize: Option<int>,
    bold: Option<bool>,
    italic: Option<bool>,
    data: Option<string>)

  /** An update input with every field null. */
  const EmptyNodeUpdate := UpdateNodeInput(None, None, None, None, None, None, None, None, None, None, None, None)

  datatype CreateEdgeInput = CreateEdgeInput(
    boardId: Id,
    source: Id,
    target: Id,
    text: Option<string>,
    color: Option<string>,
    lineStyle: Option<string>)

  datatype UpdateEdgeInput = UpdateEdgeInput(
    text: Option<string>,
    color: Option<string>,
    lineStyle: Option<string>)

  datatype CreateBoardInput = CreateBoardInput(title: Option<string>, description: Option<string>)

  datatype UpdateBoardInput = UpdateBoardInput(title: Option<string>, description: Option<string>)

  datatype ChangeType = Created | Updated | Deleted

  /** A node event: the full node for Created/Updated, `None` for Deleted. */
  datatype NodeChange = NodeChange(node: Option<Node>, nodeId: Id, changeType: ChangeType)

  datatype EdgeChange = EdgeChange(edge: Option<Edge>, edgeId: Id, changeType: ChangeType)

  /** UpdateType is a Java enum whose constants are not part of this model: it is kept by name. */
  datatype UpdateType = UpdateType(name: string)

  datatype BoardUpdate = BoardUpdate(board: Board, updateType: UpdateType)
}
