/**
 * The per-board event sinks of SubscriptionService. Each of the three channels
 * (board updates, node changes, edge changes) maps a board id to its sink; a
 * sink is abstracted to the append-only log of everything emitted on it, and a
 * subscriber to the position in that log from which it receives events.
 */
module Subscriptions {
  import opened Entities

  datatype Bus = Bus(
    boardSinks: map<Id, seq<BoardUpdate>>,
    nodeSinks: map<Id, seq<NodeChange>>,
    edgeSinks: map<Id, seq<EdgeChange>>)

  /** The state at start-up: no sink exists on any channel. */
  const NoSinks := Bus(map[], map[], map[])

  /** A live subscription: it receives what its board's sink emits from position `from` on. */
  datatype Subscription = Subscription(boardId: Id, from: nat)

  /** Everything emitted so far on a board's sink; a sink that does not exist has emitted nothing. */
  function Log<E>(sinks: map<Id, seq<E>>, boardId: Id): seq<E>
  {
    if boardId in sinks then sinks[boardId] else []
  }

  /** `computeIfAbsent(boardId, ...)`: the board's sink, created empty when absent. */
  function GetOrCreate<E>(sinks: map<Id, seq<E>>, boardId: Id): (r: map<Id, seq<E>>)
    ensures r.Keys == sinks.Keys + {boardId}
    ensures r[boardId] == Log(sinks, boardId)
    ensures forall k :: k in sinks ==> r[k] == sinks[k]
  {
    if boardId in sinks then sinks else sinks[boardId := []]
  }

  /** `after` is `before` with `e` emitted on the sink of `boardId` and nothing else changed. */
  predicate Appended<E(==)>(before: map<Id, seq<E>>, after: map<Id, seq<E>>, boardId: Id, e: E)
  {
    && after.Keys == before.Keys + {boardId}
    && after[boardId] == Log(before, boardId) + [e]
    && forall k :: k in before && k != boardId ==> after[k] == before[k]
  }

  /** `tryEmitNext` on the board's sink, created first if needed. */
  function Emit<E>(sinks: map<Id, seq<E>>, boardId: Id, e: E): (r: map<Id, seq<E>>)
    ensures Appended(sinks, r, boardId, e)
  {
    var created := GetOrCreate(sinks, boardId);
    created[boardId := created[boardId] + [e]]
  }

  /** What a subscription has received: the sink's events from its start position on. */
  function Delivered<E>(sinks: map<Id, seq<E>>, sub: Subscription): seq<E>
  {
    var log := Log(sinks, sub.boardId);
    if sub.from <= |log| then log[sub.from..] else []
  }

  /** `subscribe` on one channel: creates the sink if absent, emits nothing, and
      starts the subscriber at the current end of the log. */
  function Subscribe<E>(sinks: map<Id, seq<E>>, boardId: Id): (r: (map<Id, seq<E>>, Subscription))
    ensures r.0 == GetOrCreate(sinks, boardId)
    ensures r.1.boardId == boardId && r.1.from == |Log(sinks, boardId)|
    ensures Log(r.0, boardId) == Log(sinks, boardId)
    ensures Delivered(r.0, r.1) == []
  {
    (GetOrCreate(sinks, boardId), Subscription(boardId, |Log(sinks, boardId)|))
  }

  /** A new subscriber receives the next event emitted on its board, and only that. */
  lemma SubscribeThenEmit<E>(sinks: map<Id, seq<E>>, boardId: Id, e: E)
    ensures var (after, sub) := Subscribe(sinks, boardId);
      Delivered(Emit(after, boardId, e), sub) == [e]
  {
    var (after, sub) := Subscribe(sinks, boardId);
    EmitRoutesToBoard(after, sub, boardId, e);
  }

  /** A second `computeIfAbsent` for the same board finds the sink the first one made:
      same sink, no new entry. */
  lemma GetOrCreateIdempotent<E>(sinks: map<Id, seq<E>>, boardId: Id)
    ensures GetOrCreate(GetOrCreate(sinks, boardId), boardId) == GetOrCreate(sinks, boardId)
    ensures |GetOrCreate(sinks, boardId).Keys| <= |sinks.Keys| + 1
  {
    if boardId !in sinks {
      assert GetOrCreate(sinks, boardId).Keys == sinks.Keys + {boardId};
    }
  }

  /** A subscriber receives an emitted event exactly when it is on the event's board. */
  lemma EmitRoutesToBoard<E>(sinks: map<Id, seq<E>>, sub: Subscription, boardId: Id, e: E)
    requires sub.from <= |Log(sinks, sub.boardId)|
    ensures sub.boardId == boardId ==> Delivered(Emit(sinks, boardId, e), sub) == Delivered(sinks, sub) + [e]
    ensures sub.boardId != boardId ==> Delivered(Emit(sinks, boardId, e), sub) == Delivered(sinks, sub)
  {
    var after := Emit(sinks, boardId, e);
    if sub.boardId == boardId {
      var log := Log(sinks, boardId);
      assert Log(after, boardId) == log + [e];
      assert (log + [e])[sub.from..] == log[sub.from..] + [e];
    } else {
      assert Log(after, sub.boardId) == Log(sinks, sub.boardId);
    }
  }

  function SubscribeToBoardUpdates(b: Bus, boardId: Id): (r: (Bus, Subscription))
    ensures r.0.nodeSinks == b.nodeSinks && r.0.edgeSinks == b.edgeSinks
    ensures r.0.boardSinks.Keys == b.boardSinks.Keys + {boardId}
    ensures r.0.boardSinks == GetOrCreate(b.boardSinks, boardId)
    ensures Delivered(r.0.boardSinks, r.1) == [] && r.1.boardId == boardId
    ensures r.1.from == |Log(b.boardSinks, boardId)|
  {
    var (sinks, sub) := Subscribe(b.boardSinks, boardId);
    (b.(boardSinks := sinks), sub)
  }

  function SubscribeToNodeChanges(b: Bus, boardId: Id): (r: (Bus, Subscription))
    ensures r.0.boardSinks == b.boardSinks && r.0.edgeSinks == b.edgeSinks
    ensures r.0.nodeSinks.Keys == b.nodeSinks.Keys + {boardId}
    ensures r.0.nodeSinks == GetOrCreate(b.nodeSinks, boardId)
    ensures Delivered(r.0.nodeSinks, r.1) == [] && r.1.boardId == boardId
    ensures r.1.from == |Log(b.nodeSinks, boardId)|
  {
    var (sinks, sub) := Subscribe(b.nodeSinks, boardId);
    (b.(nodeSinks := sinks), sub)
  }

  function SubscribeToEdgeChanges(b: Bus, boardId: Id): (r: (Bus, Subscription))
    ensures r.0.boardSinks == b.boardSinks && r.0.nodeSinks == b.nodeSinks
    ensures r.0.edgeSinks.Keys == b.edgeSinks.Keys + {boardId}
    ensures r.0.edgeSinks == GetOrCreate(b.edgeSinks, boardId)
    ensures Delivered(r.0.edgeSinks, r.1) == [] && r.1.boardId == boardId
    ensures r.1.from == |Log(b.edgeSinks, boardId)|
  {
    var (sinks, sub) := Subscribe(b.edgeSinks, boardId);
    (b.(edgeSinks := sinks), sub)
  }

  /** `after` is `before` with exactly one node change published, to `boardId`. */
  predicate PublishedNode(before: Bus, after: Bus, boardId: Id, c: NodeChange)
  {
    && after.boardSinks == before.boardSinks
    && after.edgeSinks == before.edgeSinks
    && Appended(before.nodeSinks, after.nodeSinks, boardId, c)
  }

  /** `after` is `before` with exactly one edge change published, to `boardId`. */
  predicate PublishedEdge(before: Bus, after: Bus, boardId: Id, c: EdgeChange)
  {
    && after.boardSinks == before.boardSinks
    && after.nodeSinks == before.nodeSinks
    && Appended(before.edgeSinks, after.edgeSinks, boardId, c)
  }

  /** Routed by the id of the board the update carries. */
  function PublishBoardUpdate(b: Bus, update: BoardUpdate): (r: Bus)
    ensures r.nodeSinks == b.nodeSinks && r.edgeSinks == b.edgeSinks
    ensures Appended(b.boardSinks, r.boardSinks, update.board.id, update)
  {
    b.(boardSinks := Emit(b.boardSinks, update.board.id, update))
  }

  function PublishNodeChange(b: Bus, boardId: Id, c: NodeChange): (r: Bus)
    ensures PublishedNode(b, r, boardId, c)
  {
    b.(nodeSinks := Emit(b.nodeSinks, boardId, c))
  }

  function PublishEdgeChange(b: Bus, boardId: Id, c: EdgeChange): (r: Bus)
    ensures PublishedEdge(b, r, boardId, c)
  {
    b.(edgeSinks := Emit(b.edgeSinks, boardId, c))
  }
}
