# Collaborative mind-map: a Dafny model of the graph store and the board scripts

This project models the sequential core of a collaborative mind-map: a Spring
Boot GraphQL server that stores boards, nodes and edges in MongoDB and
publishes per-board change events, and the browser scripts that edit a board
drawn with Cytoscape.

- **Server graph store.** The repositories are finite maps from document id
  to document (users are a sequence in storage order). Each service operation
  is a pure function from the server state to a new state plus the value it
  returns or the message of the exception it throws. Each of the three
  subscription channels is a map from board id to an append-only log of
  everything emitted on that board's sink. The contracts say which fields an
  update overwrites, what a deletion cascades to, and which single event
  (if any) each operation publishes. Error paths change nothing.
  The model keeps one quirk of the code: `width`, `height`, `fontSize`,
  `bold` and `italic` are accepted by both node inputs but never copied or
  merged. A node resize therefore never reaches storage (`RoundTrips.ResizeIsNeverStored`).
- **Account rules.** Registration checks, in order, that the passwords
  match, that the username is free and that the email is free. The demo
  user is seeded only into an empty user store.
- **Browser computations.** These are:
  - the resize arithmetic, per handle, with a minimum of 20 and `Math.round`;
  - the 50 ms cursor throttle;
  - screen/canvas coordinate conversion;
  - the remote-cursor map;
  - the user-colour hash (ToInt32 of ECMA-262 section 7.1.6, over UTF-16 code units);
  - GraphQL result decoding;
  - default styling on load;
  - the connect, rename and drag gestures;
  - the label write-back;
  - deletion of the selection.

`RoundTrips` runs the scripts' requests through the services. It shows two
consequences of the code as written:
- Deleting a node together with an edge attached to it makes the edge's own
  delete fail with "Edge not found", because the node's delete already
  removed the edge. The failure is swallowed.
- Renaming a node to the empty label stores `""`, but the canvas keeps the
  old label, because only a truthy label is written back.

`label` is a Dafny keyword, so the `label` field of nodes, edges and inputs
is called `text` in the model. Java `null` and JavaScript `undefined` are
`Option.None`.

## Model

| member | source | states |
|---|---|---|
| Subscriptions.GetOrCreate | src/main/java/com/mindmap/service/SubscriptionService.java:48-61 | the board's sink exists afterwards, holding what it held before (nothing if new); every other sink is unchanged and at most the one key is added |
| Subscriptions.GetOrCreateIdempotent | src/main/java/com/mindmap/service/SubscriptionService.java:48-61 | a second getOrCreate for the same board returns the same sink and adds no entry |
| Subscriptions.Subscribe | src/main/java/com/mindmap/service/SubscriptionService.java:20-30 | subscribing creates the sink if absent and emits nothing; the new subscriber starts at the current end of the board's log, so it has received nothing yet and will receive every later emit |
| Subscriptions.SubscribeToBoardUpdates | src/main/java/com/mindmap/service/SubscriptionService.java:20-22 | only the board-update channel changes, by getOrCreate: the board's sink is added if absent and every existing log keeps its events; the subscriber starts at the current end of the board's log, so it has received nothing yet |
| Subscriptions.SubscribeToNodeChanges | src/main/java/com/mindmap/service/SubscriptionService.java:24-26 | only the node channel changes, by getOrCreate: the board's sink is added if absent and every existing log keeps its events; the subscriber starts at the current end of the board's log, so it has received nothing yet |
| Subscriptions.SubscribeToEdgeChanges | src/main/java/com/mindmap/service/SubscriptionService.java:28-30 | only the edge channel changes, by getOrCreate: the board's sink is added if absent and every existing log keeps its events; the subscriber starts at the current end of the board's log, so it has received nothing yet |
| Subscriptions.Emit | src/main/java/com/mindmap/service/SubscriptionService.java:38-46 | emitting appends the event to the end of the board's log only, creating the sink if needed |
| Subscriptions.EmitRoutesToBoard | src/main/java/com/mindmap/service/SubscriptionService.java:38-46 | a subscriber receives an emitted event exactly when it subscribed to the event's board |
| Subscriptions.SubscribeThenEmit | src/main/java/com/mindmap/service/SubscriptionService.java:20-46 | a fresh subscriber receives the next event emitted on its board, and only that event |
| Subscriptions.PublishBoardUpdate | src/main/java/com/mindmap/service/SubscriptionService.java:32-36 | the update is appended to the sink of the board it carries (update.board.id); node and edge channels are unchanged |
| Subscriptions.PublishNodeChange | src/main/java/com/mindmap/service/SubscriptionService.java:38-41 | the change is appended to board b's node log only; the board and edge channels are unchanged |
| Subscriptions.PublishEdgeChange | src/main/java/com/mindmap/service/SubscriptionService.java:43-46 | the change is appended to board b's edge log only; the board and node channels are unchanged |
| Repositories.FindByUsername | src/main/java/com/mindmap/service/BoardService.java:77-78 | finds a stored user with that username exactly when one exists |
| EdgeService.GetEdge | src/main/java/com/mindmap/service/EdgeService.java:31-34 | the stored edge, or "Edge not found" exactly when the id is unknown |
| EdgeService.CreateEdge | src/main/java/com/mindmap/service/EdgeService.java:36-57 | stores a new edge under the fresh id with boardId, source, target, label, colour and line style copied verbatim; no other edge changes; exactly one Created EdgeChange carrying it goes to input.boardId |
| EdgeService.MergeEdge | src/main/java/com/mindmap/service/EdgeService.java:60-71 | non-null label, colour and line style overwrite, null ones keep; source, target, boardId and all else are unchanged |
| EdgeService.UpdateEdge | src/main/java/com/mindmap/service/EdgeService.java:60-84 | an unknown id gives "Edge not found", changes nothing and publishes nothing; otherwise only that edge is replaced by the merge, and one Updated EdgeChange with the saved edge goes to the edge's own board |
| EdgeService.DeleteEdge | src/main/java/com/mindmap/service/EdgeService.java:86-101 | an unknown id gives "Edge not found" and changes nothing; otherwise exactly that edge is removed, and one Deleted change with a null edge and its id goes to its board |
| EdgeService.DeleteEdgesByNode | src/main/java/com/mindmap/service/EdgeService.java:108-111 | removes exactly the edges whose source or target is the node; publishes nothing |
| EdgeService.DeleteEdgesByBoardId | src/main/java/com/mindmap/service/EdgeService.java:103-106 | removes exactly the board's edges; publishes nothing |
| EdgeService.UpdateEdgeIdempotent | src/main/java/com/mindmap/service/EdgeService.java:60-73 | repeating an edge update with the same input stores the same edges as applying it once |
| EdgeService.CreateEdgeWellFormed | src/main/java/com/mindmap/service/EdgeService.java:36-47 | createEdge checks no endpoint: the store stays well formed exactly when both endpoints are stored nodes of the edge's board |
| EdgeService.UpdateDeleteEdgeWellFormed | src/main/java/com/mindmap/service/EdgeService.java:60-101 | updating or deleting an edge keeps every edge attached to nodes of its board |
| NodeService.GetNode | src/main/java/com/mindmap/service/NodeService.java:28-31 | the stored node, or "Node not found" exactly when the id is unknown |
| NodeService.CreateNode | src/main/java/com/mindmap/service/NodeService.java:33-57 | stores a node under a fresh id with boardId, label, x, y, colour, shape, size and data copied and createdBy set, while width, height, fontSize, bold and italic stay null; exactly one Created NodeChange with that node and id goes to the input's board |
| NodeService.MergeNode | src/main/java/com/mindmap/service/NodeService.java:59-82 | only the non-null label, x, y, colour, shape, size and data overwrite; every other stored field, width/height/fontSize/bold/italic included, keeps its value |
| NodeService.UpdateNode | src/main/java/com/mindmap/service/NodeService.java:59-95 | an unknown id gives "Node not found", removes nothing and publishes nothing; otherwise only that node is replaced by the merge, and one Updated NodeChange with the saved node and its id goes to the node's board |
| NodeService.DeleteNode | src/main/java/com/mindmap/service/NodeService.java:97-116 | an unknown id gives "Node not found" and changes nothing; otherwise the node and every edge touching it are removed, other edges stay unchanged, and one Deleted NodeChange with a null node and the id goes to its board, with no EdgeChange |
| NodeService.DeleteNodesByBoardId | src/main/java/com/mindmap/service/NodeService.java:118-121 | removes exactly the nodes whose boardId matches; edges and sinks are untouched |
| NodeService.LayoutOnlyUpdateIsLost | src/main/java/com/mindmap/service/NodeService.java:62-92 | an update whose only non-null fields are width/height/fontSize/bold/italic leaves the stored node unchanged, yet still publishes an Updated change |
| NodeService.UpdateNodeIdempotent | src/main/java/com/mindmap/service/NodeService.java:59-84 | repeating a node update with the same input stores the same nodes as applying it once |
| NodeService.DeleteUndoesCreate | src/main/java/com/mindmap/service/NodeService.java:98-105 | deleting a just-created node restores the node, edge and board stores |
| NodeService.DeleteNodeWellFormed | src/main/java/com/mindmap/service/NodeService.java:98-105 | the cascade leaves no edge pointing at the deleted node |
| NodeService.CreateUpdateNodeWellFormed | src/main/java/com/mindmap/service/NodeService.java:33-84 | creating or updating a node keeps the store well formed |
| BoardService.Distinct | src/main/java/com/mindmap/service/BoardService.java:29-31 | the result has no duplicates and holds exactly the elements of the input |
| BoardService.DistinctOfDistinctFree | src/main/java/com/mindmap/service/BoardService.java:29-31 | a list without repeats passes through distinct unchanged, because first occurrences are kept |
| BoardService.DistinctKeepsPrefix | src/main/java/com/mindmap/service/BoardService.java:29-31 | distinct of a concatenation starts with distinct of its first part |
| BoardService.GetUserBoards | src/main/java/com/mindmap/service/BoardService.java:25-32 | each board the user owns or shares appears exactly once, and no other board appears |
| BoardService.OwnedBoardsFirst | src/main/java/com/mindmap/service/BoardService.java:25-32 | the owned boards, de-duplicated and in repository order, form the prefix of the result, before any board that is only shared |
| BoardService.GetBoard | src/main/java/com/mindmap/service/BoardService.java:34-37 | the stored board, or "Board not found" exactly when the id is unknown |
| BoardService.CreateBoard | src/main/java/com/mindmap/service/BoardService.java:39-48 | stores a new board with the given title, description and owner and an empty collaborator list; nothing else changes |
| BoardService.UpdateBoard | src/main/java/com/mindmap/service/BoardService.java:50-61 | an unknown id gives "Board not found"; otherwise only non-null title and description overwrite and nothing else changes |
| BoardService.DeleteBoard | src/main/java/com/mindmap/service/BoardService.java:63-73 | an unknown id gives "Board not found" and removes nothing; otherwise the board and exactly the nodes and edges with that boardId are removed, with nothing published |
| BoardService.DeleteBoardWellFormed | src/main/java/com/mindmap/service/BoardService.java:63-73 | deleting a board keeps every remaining edge attached to nodes of its board |
| BoardService.CreateUpdateBoardWellFormed | src/main/java/com/mindmap/service/BoardService.java:39-61 | creating or updating a board keeps every board stored under its own id and every edge attached |
| BoardService.UpdateBoardIdempotent | src/main/java/com/mindmap/service/BoardService.java:50-61 | repeating a board update with the same input leaves the server as applying it once |
| BoardService.DeleteUndoesCreateBoard | src/main/java/com/mindmap/service/BoardService.java:39-73 | deleting a just-created board before anything is put on it restores the whole server |
| BoardService.FirstEntry | src/main/java/com/mindmap/service/BoardService.java:92-95 | gives the position of the user's first collaborator entry |
| BoardService.Upsert | src/main/java/com/mindmap/service/BoardService.java:80-96 | a new user is appended once with the permission; for an existing user exactly the first entry for that user (findFirst) gets the permission and every other entry is unchanged; afterwards the user's first entry carries the permission, and a list without repeated users stays so |
| BoardService.ShareBoard | src/main/java/com/mindmap/service/BoardService.java:75-99 | succeeds exactly when the board exists and a user has that username; an unknown board gives "Board not found", then an unknown username gives "User not found", and either leaves everything unchanged; on success only the board changes, by the upsert |
| BoardService.ShareBoardIdempotent | src/main/java/com/mindmap/service/BoardService.java:75-99 | sharing twice with the same user and permission leaves the same state as sharing once, also when the collaborator list already repeats the user |
| Accounts.Register | src/main/java/com/mindmap/controller/AuthController.java:21-58 | a password mismatch always gives "register" with "Passwords do not match", whatever the username or email; then a taken username is reported before the email is checked; every failure saves nothing; success saves exactly one enabled user with roles {"USER"} and the encoder's output, and redirects to "redirect:/login?registered" |
| Accounts.RegisterClaimsUsername | src/main/java/com/mindmap/controller/AuthController.java:35-38 | after a successful registration, registering the same username again fails and saves nothing |
| Accounts.SeedDemoUser | src/main/java/com/mindmap/config/DataInitializer.java:21-36 | an empty store gets exactly the enabled "demo"/"demo@example.com" user with roles {"USER"} and the encoding of "demo123"; a non-empty store is unchanged |
| Accounts.SeedDemoUserIdempotent | src/main/java/com/mindmap/config/DataInitializer.java:22-36 | running the initializer twice gives the same store as running it once |
| Accounts.SeededDemoBlocksRegistration | src/main/java/com/mindmap/controller/AuthController.java:35-38 | once seeded, the name "demo" cannot be registered |
| NodeResize.JsRound | src/main/resources/static/js/node-resize.js:175-176 | Math.round is within one half of its argument |
| NodeResize.OrDefault | src/main/resources/static/js/node-resize.js:112-115 | a missing or zero value falls back to the default |
| NodeResize.Stretch | src/main/resources/static/js/node-resize.js:145-171 | a dragged dimension is at least 20: exactly 20 when start plus displacement is at most 20, and otherwise within one half of start plus displacement |
| NodeResize.StretchMonotone | src/main/resources/static/js/node-resize.js:151-160 | a larger displacement never gives a smaller dimension |
| NodeResize.StartResize | src/main/resources/static/js/node-resize.js:104-115 | captures handle, pointer and start size; an unset width or height starts at 80 or 50 |
| NodeResize.NewSize | src/main/resources/static/js/node-resize.js:128-176 | east handles add dx/zoom to the width and west handles subtract it; south handles add dy/zoom to the height and north handles subtract it; n and s keep the start width, and e and w keep the start height |
| NodeResize.ResizeMove | src/main/resources/static/js/node-resize.js:128-180 | with no resize under way nothing changes; otherwise only the held node's width and height change, to the computed size |
| NodeResize.ResizeMoveIdempotent | src/main/resources/static/js/node-resize.js:131-176 | a second move to the same pointer position changes nothing |
| NodeResize.ResizeEnd | src/main/resources/static/js/node-resize.js:182-208 | with no resize under way nothing is sent; otherwise exactly one update with only the node's width and height is sent, and the state resets to idle |
| NodeResize.ResizeKeepsMinSize | src/main/resources/static/js/node-resize.js:112-176 | starting from sizes of at least 20, a resize start and any move keep every width and height at least 20 |
| CursorTracking.ConversionsAreInverse | src/main/resources/static/js/cursor-tracking.js:33-36 | screen-to-canvas and canvas-to-screen conversion undo each other for any positive zoom |
| CursorTracking.OnMouseMove | src/main/resources/static/js/cursor-tracking.js:22-39 | a position is sent exactly when at least 50 ms have passed since the last send, and it is the container-relative pointer converted to canvas coordinates; otherwise nothing changes |
| CursorTracking.SentTimes | src/main/resources/static/js/cursor-tracking.js:22-25 | at most one position is sent per mousemove, and every sent time is the clock reading of one of the moves |
| CursorTracking.SentTimesAreSpaced | src/main/resources/static/js/cursor-tracking.js:22-25 | successive sent timestamps are at least 50 ms apart, for any sequence of clock readings |
| CursorTracking.ToInt32 | src/main/resources/static/js/cursor-tracking.js:174 | the result is a 32-bit signed integer congruent to the input modulo 2^32 |
| CursorTracking.CodeUnits | src/main/resources/static/js/cursor-tracking.js:173-174 | a character below U+10000 is its own single code unit; any other becomes a high surrogate (D800-DBFF) and a low surrogate (DC00-DFFF) that decode back to it |
| CursorTracking.Utf16 | src/main/resources/static/js/cursor-tracking.js:173-174 | a string becomes between |s| and 2|s| code units below 2^16, and a string without supplementary characters becomes exactly its character codes |
| CursorTracking.Utf16Append | src/main/resources/static/js/cursor-tracking.js:173-174 | the code units of a concatenation are the concatenation of the code units |
| CursorTracking.HashBound | src/main/resources/static/js/cursor-tracking.js:172-175 | the hash grows by at most 2^31 + 2^16 per code unit, so it stays exact in a double for realistic ids |
| CursorTracking.UserColor | src/main/resources/static/js/cursor-tracking.js:164-178 | whatever the id, the colour is one of the 12 palette entries |
| CursorTracking.EmptyIdColor | src/main/resources/static/js/cursor-tracking.js:172-177 | the empty id gets '#FF6B6B' |
| CursorTracking.UpdateRemoteCursor | src/main/resources/static/js/cursor-tracking.js:96-115 | the first update for a user inserts an entry with its name and colour, and later ones only move it; other entries are untouched and none is removed |
| CursorTracking.OnCursorMoved | src/main/resources/static/js/cursor-tracking.js:76-94 | events with the current user's id leave the cursors unchanged, and any other event is passed to updateRemoteCursor; this contract only names the two branches, and what they mean over a series of events is stated by CursorsOnlyGrow |
| CursorTracking.CursorsOnlyGrow | src/main/resources/static/js/cursor-tracking.js:99-106 | over any event series the key set only grows, only by users seen in the events, never by the current user |
| BoardClient.GraphqlRequest | src/main/resources/static/js/board.js:12-17 | returns normally exactly when the result has no errors, giving result.data; otherwise it throws errors[0].message (a TypeError for an empty list) |
| BoardClient.GraphqlRequestRoundTrip | src/main/resources/static/js/board.js:12-17 | a response with data decodes to that data, and an error response throws an Error carrying its first error's message |
| BoardClient.StringOr | src/main/resources/static/js/board.js:160-161 | a truthy string is kept and a falsy one replaced |
| BoardClient.LoadedNode | src/main/resources/static/js/board.js:154-166 | a falsy colour, shape or size becomes '#3498db', 'ellipse' or 50, and a truthy one is kept |
| BoardClient.LoadedEdge | src/main/resources/static/js/board.js:169-180 | a falsy label or colour becomes '' or '#95a5a6', and a truthy one is kept |
| BoardClient.LoadedNodeStable | src/main/resources/static/js/board.js:160-162 | filling defaults into an already loaded node changes nothing |
| BoardClient.AddNodes | src/main/resources/static/js/board.js:154-166 | the canvas gains exactly the listed node ids, each with its row's loaded data; other nodes are untouched |
| BoardClient.AddEdges | src/main/resources/static/js/board.js:169-180 | the canvas gains exactly the listed edge ids, each with its row's loaded data; other edges are untouched |
| BoardClient.LoadBoardData | src/main/resources/static/js/board.js:147-186 | if either query throws, nothing is added and an alert is shown; a missing node list adds nothing and alerts a TypeError; a missing edge list keeps the nodes already added and alerts a TypeError; the load completes without an alert exactly when both lists arrive, with every node and then every edge added |
| BoardClient.ConnectTo | src/main/resources/static/js/board.js:106-113 | an edge is requested exactly when the target id differs from the source id |
| BoardClient.Rename | src/main/resources/static/js/board.js:85-91 | updateNode is sent, with only the label, exactly when the prompt was not cancelled and the label differs from the current one |
| BoardClient.DragEnd | src/main/resources/static/js/board.js:94-98 | a drag sends only x and y |
| BoardClient.UpdateNodeWriteBack | src/main/resources/static/js/board.js:262-268 | only the label is written back, only when it is truthy; failures leave the canvas unchanged |
| BoardClient.DeleteRequests | src/main/resources/static/js/board.js:318-324 | one deleteNode or deleteEdge per selected element, in selection order |
| BoardClient.RemoveSelection | src/main/resources/static/js/board.js:326 | the selected nodes and edges, and the edges attached to selected nodes, leave the canvas; the rest stays |
| BoardClient.RemoveSelectionKeepsEdgesAttached | src/main/resources/static/js/board.js:326 | removing a selection never leaves an edge whose endpoint has left the canvas |
| BoardClient.AwaitDelete | src/main/resources/static/js/board.js:329-355 | awaiting deleteNode or deleteEdge never throws, whatever the server answered: the catch swallows every failure, so this holds by construction |
| BoardClient.DeleteLoop | src/main/resources/static/js/board.js:318-324 | the loop over the selection always runs to the end, whatever the outcomes; this follows directly from AwaitDelete never throwing, one step per element |
| BoardClient.DeleteSelected | src/main/resources/static/js/board.js:315-327 | for every combination of request outcomes, one delete is sent per selected element and the canvas ends as the removal of the selection: no failure stops the loop |
| RoundTrips.ResizeIsNeverStored | src/main/resources/static/js/node-resize.js:195-202 | the update a resize sends leaves the server's nodes exactly as they were |
| RoundTrips.ConnectMakesNoSelfLoop | src/main/resources/static/js/board.js:106-113 | an edge created by the connect gesture joins the chosen source to the chosen target, and never a node to itself |
| RoundTrips.RenameRoundTrip | src/main/resources/static/js/board.js:262-266 | a rename is stored as typed; the canvas shows it if it is non-empty, and is left unchanged for an empty label |
| RoundTrips.DragRoundTrip | src/main/resources/static/js/board.js:94-98 | a drag stores the new position and nothing else |
| RoundTrips.DeleteNodeWithItsEdge | src/main/resources/static/js/board.js:315-355 | deleting a node together with an attached edge makes the second request fail with "Edge not found", yet both leave the server and the canvas |

## Left out

- I/O is left out: HTTP, `fetch` and JSON parsing. `graphqlRequest` is modelled from the parsed result object on.
- Sink delivery is left out: Reactor's multicast and best-effort delivery, backpressure, and the dropping of events when no one subscribes. Each sink is its append-only log, and a subscriber receives the log from the moment it subscribed.
- The server's cursor channel is left out. The resolvers call `subscribeToCursorMovements` and `publishCursorPosition`, but `SubscriptionService` does not define them. The browser side of cursors is modelled.
- The browser's `subscribe` function is not part of this model. Applying change events to the canvas, echo suppression and reconnection are not implemented by any code modelled here, so they are not modelled.
- Rendering and the DOM are left out: Cytoscape styles, resize-handle placement, the cursor SVG, modals, forms and the board-listing page.
- The cursor fade-out timer is left out. `Date.now()` is a parameter.
- Creation and modification timestamps are left out, as are MongoDB persistence and transactions.
- Concurrency is left out: every operation runs alone.
- The password encoder is a parameter, an arbitrary function from password to stored string.
- Database-assigned ids are left out. A fresh id is a parameter, and the operations that store a new document require it to be unused.
- `getNodesByBoardId` and `getEdgesByBoardId` are left out: their order is the database's. The rows they return are parameters of `LoadBoardData`.
- Some board.js calls are left out: the canvas insertion after a `createNode` or `createEdge` response, and `shareBoard`. The node insertion copies the returned fields without defaults. The edge insertion copies them too, except that a falsy label becomes `''`.
- Cytoscape's own checks are left out: rejecting a duplicate element id, or an edge whose endpoint is missing. On load, a later row with the same id wins.
- Floating point is left out. Positions and pointer arithmetic are exact reals, `Math.round` is floor(x + 0.5), and NaN and infinities do not occur.
- Some source files are not part of this model: User, Permission, UpdateType, ChangeType, UserRepository, UpdateEdgeInput, CreateBoardInput and UpdateBoardInput. Their shapes come from how the code modelled here uses them. The Permission and UpdateType constants are kept by name.
- Error messages: the model assumes that the message of an exception a service throws ("Node not found" and the like) reaches the browser as the GraphQL error message. No exception resolver among the files modelled here guarantees this, and by default the GraphQL framework reports an unresolved exception with a generic internal-error message. `RoundTrips.DeleteNodeWithItsEdge` names the server-side result, and `BoardClient.GraphqlRequest` decodes whatever message arrives.
- Null ids are left out. Board ids, node/edge board ids and edge endpoints are non-null ids, as the GraphQL inputs supply them, so the null-pointer paths for a null id are not modelled.
- Each stored document is kept under its own id (`Repositories.WellFormed`). `save` after a lookup writes back under the id looked up.
- Repositories.FindByUsername: returns the first stored user with the name. With more than one user of that name, the single-result repository query would throw instead. That case is not modelled, and it cannot arise here, because `Register` and `SeedDemoUser` never store a second user with a name already taken.
- BoardService.GetUserBoards: takes the board repository's documents in storage order as a parameter; the database's own ordering is not modelled.
- CursorTracking.UserColor: computes the hash with exact integers; JavaScript's doubles agree only while the hash stays below 2^53, which `HashBound` guarantees for ids shorter than about a million code units.
- NodeResize.ResizeEnd: assumes the page defines `updateNode`, as the board page does; when it is not defined the script sends nothing.
- NodeResize.ResizeMove: the script's separate `isResizing` and `resizingNode` flags are one idle/resizing state, so the two guard conditions are one.
