/**
 * The server's state: the MongoDB repositories as finite maps from document id
 * to document (the user collection as a sequence in storage order, so that a
 * lookup by username has a definite first match) together with the event sinks.
 */
module Repositories {
  import opened Wrappers
  import opened Entities
  import opened Subscriptions

  datatype Server = Server(
    nodes: map<Id, Node>,
    edges: map<Id, Edge>,
    boards: map<Id, Board>,
    users: seq<User>,
    bus: Bus)

  /** The server after an operation, with what the operation returned or threw. */
  datatype Reply<+T> = Reply(server: Server, result: Result<T>)

  /** `userRepository.findByUsername`: the first stored user with that name. */
  function FindByUsername(users: seq<User>, username: string): (r: Option<User>)
    ensures r.None? <==> forall u :: u in users ==> u.username != username
    ensures r.Some? ==> r.value in users && r.value.username == username
  {
    if |users| == 0 then None
    else if users[0].username == username then Some(users[0])
    else FindByUsername(users[1..], username)
  }

  predicate Attached(s: Server, e: Edge)
  {
    && e.source in s.nodes && s.nodes[e.source].boardId == e.boardId
    && e.target in s.nodes && s.nodes[e.target].boardId == e.boardId
  }

  /**
   * The server states worth keeping: every document is stored under its own
   * id, and every edge joins two stored nodes of its own board.
   */
  predicate WellFormed(s: Server)
  {
    && (forall k :: k in s.nodes ==> s.nodes[k].id == k)
    && (forall k :: k in s.edges ==> s.edges[k].id == k && Attached(s, s.edges[k]))
    && (forall k :: k in s.boards ==> s.boards[k].id == k)
  }
}
