/** BoardService: listing, creation, partial update, cascading deletion and sharing of boards. */
module BoardService {
  import opened Wrappers
  import opened Entities
  import opened Subscriptions
  import opened Repositories
  import NodeService
  import EdgeService

  const BoardNotFound := "Board not found"
  const UserNotFound := "User not found"

  /** The elements of `s` that satisfy `p`, in order. */
  function Filter<T(!new)>(s: seq<T>, p: T -> bool): (r: seq<T>)
    ensures forall x :: x in r <==> x in s && p(x)
    ensures |r| <= |s|
  {
    if |s| == 0 then []
    else (if p(s[0]) then [s[0]] else []) + Filter(s[1..], p)
  }

  predicate NoDuplicates<T(==)>(s: seq<T>)
  {
    forall i, j :: 0 <= i < j < |s| ==> s[i] != s[j]
  }

  /** `Stream.distinct()`: drops every element equal to an earlier one. */
  function Distinct<T(==,!new)>(s: seq<T>): (r: seq<T>)
    ensures NoDuplicates(r)
    ensures forall x :: x in r <==> x in s
    ensures |r| <= |s|
  {
    if |s| == 0 then []
    else
      var rest := Distinct(s[..|s| - 1]);
      var x := s[|s| - 1];
      assert forall y :: y in s <==> y in s[..|s| - 1] || y == x;
      if x in rest then rest else rest + [x]
  }

  /** Distinct keeps the first occurrence of each element: a list without repeats comes back unchanged. */
  lemma {:induction false} DistinctOfDistinctFree<T(!new)>(s: seq<T>)
    requires NoDuplicates(s)
    ensures Distinct(s) == s
  {
    if |s| > 0 {
      var init := s[..|s| - 1];
      assert NoDuplicates(init);
      DistinctOfDistinctFree(init);
      assert s[|s| - 1] !in init;
      assert init + [s[|s| - 1]] == s;
    }
  }

  /** Distinct works front to back: what it keeps of a prefix is a prefix of what it keeps of the whole. */
  lemma {:induction false} DistinctKeepsPrefix<T(!new)>(a: seq<T>, b: seq<T>)
    ensures |Distinct(a)| <= |Distinct(a + b)|
    ensures Distinct(a + b)[..|Distinct(a)|] == Distinct(a)
  {
    if |b| == 0 {
      assert a + b == a;
    } else {
      var b' := b[..|b| - 1];
      DistinctKeepsPrefix(a, b');
      assert (a + b)[..|a + b| - 1] == a + b';
    }
  }

  predicate OwnedBy(b: Board, userId: Id)
  {
    b.owner.Some? && b.owner.value.id == userId
  }

  predicate SharedWith(b: Board, userId: Id)
  {
    exists c :: c in b.collaborators && c.user.id == userId
  }

  /**
   * getUserBoards over the board repository's documents in storage order: the
   * boards the user owns, then those shared with them, with repeats dropped.
   */
  function GetUserBoards(listing: seq<Board>, userId: Id): (r: seq<Board>)
    ensures NoDuplicates(r)
    ensures forall b :: b in r <==> b in listing && (OwnedBy(b, userId) || SharedWith(b, userId))
  {
    Distinct(Filter(listing, b => OwnedBy(b, userId)) + Filter(listing, b => SharedWith(b, userId)))
  }

  /** Owned boards come first, in repository order, before any board that is only shared. */
  lemma OwnedBoardsFirst(listing: seq<Board>, userId: Id)
    ensures var owned := Distinct(Filter(listing, b => OwnedBy(b, userId)));
      |owned| <= |GetUserBoards(listing, userId)| && GetUserBoards(listing, userId)[..|owned|] == owned
  {
    DistinctKeepsPrefix(Filter(listing, b => OwnedBy(b, userId)), Filter(listing, b => SharedWith(b, userId)));
  }

  function GetBoard(s: Server, id: Id): (r: Result<Board>)
    ensures r.Ok? <==> id in s.boards
    ensures r.Ok? ==> r.value == s.boards[id]
    ensures r.Err? ==> r.error == BoardNotFound
  {
    if id in s.boards then Ok(s.boards[id]) else Err(BoardNotFound)
  }

  /** createBoard: a new board with the input's title and description, the given owner and nobody to share with. */
  function CreateBoard(s: Server, input: CreateBoardInput, owner: Option<User>, freshId: Id): (r: Reply<Board>)
    requires freshId !in s.boards
    ensures r.result.Ok?
    ensures var b := r.result.value;
      b.id == freshId && b.title == input.title && b.description == input.description
      && b.owner == owner && b.collaborators == []
    ensures r.server.boards.Keys == s.boards.Keys + {freshId}
    ensures r.server.boards[freshId] == r.result.value
    ensures forall k :: k in s.boards ==> r.server.boards[k] == s.boards[k]
    ensures r.server.nodes == s.nodes && r.server.edges == s.edges
    ensures r.server.users == s.users && r.server.bus == s.bus
  {
    var b := Board(freshId, input.title, input.description, owner, []);
    Reply(s.(boards := s.boards[freshId := b]), Ok(b))
  }

  /** updateBoard: "Board not found" with nothing changed, or title and description
      overwritten where the input gives them, nothing else changed, nothing published. */
  function UpdateBoard(s: Server, id: Id, input: UpdateBoardInput): (r: Reply<Board>)
    ensures id !in s.boards ==> r == Reply(s, Err(BoardNotFound))
    ensures id in s.boards <==> r.result.Ok?
    ensures id in s.boards ==>
      var b, b' := s.boards[id], r.result.value;
      && (input.title.Some? ==> b'.title == input.title)
      && (input.title.None? ==> b'.title == b.title)
      && (input.description.Some? ==> b'.description == input.description)
      && (input.description.None? ==> b'.description == b.description)
      && b'.(title := b.title, description := b.description) == b
      && r.server == s.(boards := s.boards[id := b'])
  {
    match GetBoard(s, id)
    case Err(msg) => Reply(s, Err(msg))
    case Ok(b) =>
      var b' := b.(title := input.title.Or(b.title), description := input.description.Or(b.description));
      Reply(s.(boards := s.boards[id := b']), Ok(b'))
  }

  /**
   * deleteBoard: "Board not found" with nothing removed, or the board, all its
   * nodes and all its edges removed; nothing is published.
   */
  function DeleteBoard(s: Server, id: Id): (r: Reply<bool>)
    ensures id !in s.boards ==> r == Reply(s, Err(BoardNotFound))
    ensures id in s.boards ==>
      && r.result == Ok(true)
      && r.server.boards == s.boards - {id}
      && (forall k :: k in r.server.nodes <==> k in s.nodes && s.nodes[k].boardId != id)
      && (forall k :: k in r.server.nodes ==> r.server.nodes[k] == s.nodes[k])
      && (forall k :: k in r.server.edges <==> k in s.edges && s.edges[k].boardId != id)
      && (forall k :: k in r.server.edges ==> r.server.edges[k] == s.edges[k])
      && r.server.users == s.users && r.server.bus == s.bus
  {
    match GetBoard(s, id)
    case Err(msg) => Reply(s, Err(msg))
    case Ok(_) =>
      var s1 := NodeService.DeleteNodesByBoardId(s, id);
      var s2 := EdgeService.DeleteEdgesByBoardId(s1, id);
      Reply(s2.(boards := s2.boards - {id}), Ok(true))
  }

  /** Deleting a board keeps the server well formed: an edge outside the board
      only joins nodes outside it. */
  lemma DeleteBoardWellFormed(s: Server, id: Id)
    requires WellFormed(s)
    ensures WellFormed(DeleteBoard(s, id).server)
  {
  }

  /** createBoard and updateBoard keep every board stored under its own id. */
  lemma CreateUpdateBoardWellFormed(s: Server, input: CreateBoardInput, owner: Option<User>, freshId: Id,
                                    id: Id, update: UpdateBoardInput)
    requires WellFormed(s) && freshId !in s.boards
    ensures WellFormed(CreateBoard(s, input, owner, freshId).server)
    ensures WellFormed(UpdateBoard(s, id, update).server)
  {
  }

  /** Updating a board twice with the same input stores what updating it once stores. */
  lemma UpdateBoardIdempotent(s: Server, id: Id, input: UpdateBoardInput)
    ensures var once := UpdateBoard(s, id, input).server;
      UpdateBoard(once, id, input).server == once
  {
    var once := UpdateBoard(s, id, input).server;
    if id in s.boards {
      assert once.boards[id := once.boards[id]] == once.boards;
    }
  }

  /** Deleting a board just created, before anything is put on it, restores every store. */
  lemma DeleteUndoesCreateBoard(s: Server, input: CreateBoardInput, owner: Option<User>, freshId: Id)
    requires freshId !in s.boards
    requires forall k :: k in s.nodes ==> s.nodes[k].boardId != freshId
    requires forall k :: k in s.edges ==> s.edges[k].boardId != freshId
    ensures DeleteBoard(CreateBoard(s, input, owner, freshId).server, freshId).server == s
  {
    var t := DeleteBoard(CreateBoard(s, input, owner, freshId).server, freshId).server;
    assert t.boards == s.boards;
    assert t.nodes == s.nodes;
    assert t.edges == s.edges;
  }

  predicate IsCollaborator(cs: seq<Collaborator>, userId: Id)
  {
    exists j :: 0 <= j < |cs| && cs[j].user.id == userId
  }

  /** No user appears twice among a board's collaborators. */
  predicate UniqueCollaborators(cs: seq<Collaborator>)
  {
    forall i, j :: 0 <= i < j < |cs| ==> cs[i].user.id != cs[j].user.id
  }

  /** `filter(...).findFirst()`: the position of the first collaborator entry for the user. */
  function FirstEntry(cs: seq<Collaborator>, userId: Id): (i: nat)
    requires IsCollaborator(cs, userId)
    ensures i < |cs| && cs[i].user.id == userId
    ensures forall j :: 0 <= j < i ==> cs[j].user.id != userId
  {
    if cs[0].user.id == userId then 0
    else
      assert IsCollaborator(cs[1..], userId) by {
        var j :| 0 <= j < |cs| && cs[j].user.id == userId;
        assert cs[1..][j - 1] == cs[j];
      }
      1 + FirstEntry(cs[1..], userId)
  }

  /**
   * The collaborator upsert of shareBoard: a user not yet present is appended
   * with the permission; otherwise only that user's first entry gets the new
   * permission and the list keeps its length. Either way the user ends up with
   * that permission, and a list without repeated users stays so.
   */
  function Upsert(cs: seq<Collaborator>, user: User, permission: Permission): (r: seq<Collaborator>)
    ensures !IsCollaborator(cs, user.id) ==>
      |r| == |cs| + 1 && r[..|cs|] == cs && r[|cs|] == Collaborator(user, permission)
    ensures IsCollaborator(cs, user.id) ==>
      && |r| == |cs|
      && (forall j :: 0 <= j < |cs| ==> r[j].user == cs[j].user)
      && (forall j :: 0 <= j < |cs| && r[j] != cs[j] ==> cs[j].user.id == user.id)
    ensures IsCollaborator(cs, user.id) ==>
      var i := FirstEntry(cs, user.id);
      && r[i] == cs[i].(permission := permission)
      && (forall j :: 0 <= j < |cs| && j != i ==> r[j] == cs[j])
    ensures IsCollaborator(r, user.id) && r[FirstEntry(r, user.id)].permission == permission
    ensures UniqueCollaborators(cs) ==> UniqueCollaborators(r)
  {
    if !IsCollaborator(cs, user.id) then
      var r := cs + [Collaborator(user, permission)];
      assert r[|cs|].user.id == user.id;
      r
    else
      var i := FirstEntry(cs, user.id);
      var r := cs[i := cs[i].(permission := permission)];
      assert r[i].user.id == user.id;
      r
  }

  /**
   * shareBoard: "Board not found" or "User not found" (in that order) with
   * nothing changed; otherwise the board saved with the named user upserted
   * among its collaborators, and nothing else changed.
   */
  function ShareBoard(s: Server, boardId: Id, username: string, permission: Permission): (r: Reply<Board>)
    ensures boardId !in s.boards ==> r == Reply(s, Err(BoardNotFound))
    ensures boardId in s.boards && FindByUsername(s.users, username).None? ==> r == Reply(s, Err(UserNotFound))
    ensures r.result.Ok? <==> boardId in s.boards && FindByUsername(s.users, username).Some?
    ensures r.result.Ok? ==>
      var b, user := s.boards[boardId], FindByUsername(s.users, username).value;
      && boardId in s.boards
      && user in s.users && user.username == username
      && r.result.value == b.(collaborators := Upsert(b.collaborators, user, permission))
      && r.server == s.(boards := s.boards[boardId := r.result.value])
    ensures r.result.Err? ==> r.server == s
  {
    match GetBoard(s, boardId)
    case Err(msg) => Reply(s, Err(msg))
    case Ok(b) =>
      match FindByUsername(s.users, username)
      case None => Reply(s, Err(UserNotFound))
      case Some(user) =>
        var b' := b.(collaborators := Upsert(b.collaborators, user, permission));
        Reply(s.(boards := s.boards[boardId := b']), Ok(b'))
  }

  /**
   * Sharing twice with the same user and permission leaves what sharing once
   * left, even on a board whose collaborator list already names the user more
   * than once: both calls update the same first entry.
   */
  lemma ShareBoardIdempotent(s: Server, boardId: Id, username: string, permission: Permission)
    ensures var once := ShareBoard(s, boardId, username, permission).server;
      ShareBoard(once, boardId, username, permission).server == once
  {
    var once := ShareBoard(s, boardId, username, permission).server;
    if boardId in s.boards && FindByUsername(s.users, username).Some? {
      var user := FindByUsername(s.users, username).value;
      var cs := once.boards[boardId].collaborators;
      var i := FirstEntry(cs, user.id);
      assert cs[i := cs[i].(permission := permission)] == cs;
      assert once.boards[boardId := once.boards[boardId]] == once.boards;
    }
  }
}
