# Client-side presence and movement protocol (Towny)

This project models the client half of Towny's real-time presence protocol, as two
browser clients implement it. Each client keeps its own grid position and a map from
user id to `{id, x, y, color}` for the other participants. Key presses move the player
optimistically and send `move{x,y}` to the server. Server events then update the state:
`space-joined`, `user-joined`, `movement`, `movement-rejected` and `user-left`.

The protocol appears twice in the repository, with different semantics, and both
copies are modelled:

- `FrontendPlay` models `frontend/src/pages/protected/PlayPage.tsx`. Steps are clamped
  to the grid, and a key press that does not move sends nothing. Key presses are
  ignored unless the socket is open and the join has set a user id. `user-joined` and
  `movement` both go through `handleUserUpdate`, which merges into an existing entry
  and creates missing ones.
- `MetaversePlay` models `metaverse/apps/frontend/src/pages/protected/PlayPage.tsx`.
  Steps are unclamped. Once any socket object exists, every handled key moves the
  player, whatever the socket's state. The move is sent only if the socket is open.
  `user-joined` overwrites the entry with a fresh colour, and `movement` for an
  unknown id is ignored.
- `Protocol` holds what the two share: positions, keys, the parsed event type, the
  colour palette, `Map.delete`, and the users map built from a `space-joined` snapshot.
- `Divergence` sets the two clients side by side. It proves where they agree and
  states the conditions under which they differ.

Both clients are pure functions:

- `OnKey(state, key, socket)` returns the new state and the optional `move` payload.
- `OnMsg(state, event, draw)` returns the new state.

`draw(i)` is the i-th random colour pick made while one event is handled. It stands
for `Math.floor(Math.random() * COLORS.length)`. The socket is its `readyState`, with
`NoSocket` for a null reference. The position reference is the single source of
truth for the player's position.

## Model

| member | source | states |
|---|---|---|
| Protocol.ParseKeyExact | frontend/src/pages/protected/PlayPage.tsx:181-199 | Each direction is selected by exactly its arrow key and its lower-case WASD letter. Every other key name, including upper-case letters, is unhandled. |
| Protocol.Delta | metaverse/apps/frontend/src/pages/protected/PlayPage.tsx:164-183 | A handled key's offset changes exactly one coordinate by at most one. An unhandled key's offset is zero. |
| Protocol.TranslateIsUnitStep | metaverse/apps/frontend/src/pages/protected/PlayPage.tsx:164-183 | A handled key moves to a four-neighbour: exactly one coordinate changes, by exactly one. |
| Protocol.Palette | frontend/src/pages/protected/PlayPage.tsx:9-12 | Every picked colour is one of the ten palette entries. |
| Protocol.Without | frontend/src/pages/protected/PlayPage.tsx:121-128 | Removing an id deletes exactly that key and leaves every other entry as it was. Removing an absent id is a no-op. The users-map invariant is kept. |
| Protocol.IdsBeforeMembership | frontend/src/pages/protected/PlayPage.tsx:89-95 | An id is among the first n listed ids iff some user before index n carries it. |
| Protocol.UsersAfter | frontend/src/pages/protected/PlayPage.tsx:89-95 | After the snapshot loop has stored the first n listed users, the map's keys are exactly their ids. |
| Protocol.UsersAfterValid | frontend/src/pages/protected/PlayPage.tsx:89-95 | Every entry the snapshot loop stores sits under its own id, with a palette colour. |
| Protocol.UsersFromSnapshot | frontend/src/pages/protected/PlayPage.tsx:89-96 | The map built from the join snapshot has exactly the listed ids as keys. Each entry is stored under its own id with a palette colour. |
| Protocol.EntryAfter | metaverse/apps/frontend/src/pages/protected/PlayPage.tsx:79-85 | After the loop has stored n users, a user whose id is not repeated later among them keeps its own x, y and colour pick. |
| Protocol.SnapshotEntry | metaverse/apps/frontend/src/pages/protected/PlayPage.tsx:79-86 | For each listed user whose id does not occur later in the list, the snapshot map holds that user's id, x and y and the colour from that user's own pick. A later duplicate wins. |
| Protocol.IdsBeforeSizeDistinct | metaverse/apps/frontend/src/pages/protected/PlayPage.tsx:79-85 | If the first n listed ids are pairwise distinct, there are exactly n of them. |
| Protocol.SnapshotSizeDistinct | metaverse/apps/frontend/src/pages/protected/PlayPage.tsx:79-86 | If the listed ids are distinct, the snapshot map has one entry per listed user. |
| FrontendPlay.ClampedStepIsGuardedTranslate | frontend/src/pages/protected/PlayPage.tsx:181-200 | From a cell on the grid, the clamped step equals the unit step when the target is on the grid. Otherwise the position is unchanged. |
| FrontendPlay.OnKey | frontend/src/pages/protected/PlayPage.tsx:174-213 | Three guards each leave the state unchanged and send nothing: a socket that is not open, an empty user id, or an unhandled key. A move is sent exactly when the position changes, and it carries the new position. The new position is one unit step in the key's direction. Only the position changes. A position on the grid stays on the grid. From the grid, a move is sent iff the unit step stays on the grid. |
| FrontendPlay.UpdateUser | frontend/src/pages/protected/PlayPage.tsx:50-67 | The keys become the old keys plus the id, and the entry gets the given x and y. A known entry keeps its id and colour. An unknown id gets a new entry with that id and a palette colour. All other entries are unchanged, and the users-map invariant is kept. |
| FrontendPlay.OnMsg | frontend/src/pages/protected/PlayPage.tsx:79-130 | `space-joined` sets the position and the current user to the spawn and payload id, the map keys to the listed ids, and the space to the payload. `movement-rejected` overwrites the position and the current user's x,y, and nothing else. `user-joined` and `movement` set exactly their own entry. `user-left` removes exactly its id. No peer event changes the own position, user or space. An unknown type changes nothing. |
| FrontendPlay.SpaceJoinedEntries | frontend/src/pages/protected/PlayPage.tsx:83-96 | After `space-joined`, each listed user whose id is not repeated later in the list is known with its own id, x and y and the colour of its own pick. |
| FrontendPlay.InitialIgnoresKeys | frontend/src/pages/protected/PlayPage.tsx:28 | In the initial state, before `space-joined` has set a user id, no key press moves the player or sends anything, whatever the socket's state. |
| FrontendPlay.OnMsgKeepsValidUsers | frontend/src/pages/protected/PlayPage.tsx:83-128 | Every event keeps the users map keyed by each entry's own id, with palette colours. |
| FrontendPlay.UpdateKeepsIdentity | frontend/src/pages/protected/PlayPage.tsx:50-56 | For a known participant, `user-joined` and `movement` replace x and y only. Its id and colour are preserved. |
| FrontendPlay.JoinThenLeaveRestores | frontend/src/pages/protected/PlayPage.tsx:101-128 | For a participant not yet known, `user-left` undoes `user-joined`, and the state is restored exactly. |
| FrontendPlay.RunKeys | frontend/src/pages/protected/PlayPage.tsx:174-213 | Any sequence of key presses changes only the position. It sends at most one move per key. |
| FrontendPlay.RunKeysStaysOnGrid | frontend/src/pages/protected/PlayPage.tsx:178-212 | From a cell on the grid, any sequence of key presses ends on the grid, and every move sent lies on the grid. |
| FrontendPlay.RunKeysSendsWalk | frontend/src/pages/protected/PlayPage.tsx:181-212 | The moves sent form a walk of unit steps from the start to the final local position, with no repeated no-op sends. |
| FrontendPlay.RejectionDiscardsOptimisticMoves | frontend/src/pages/protected/PlayPage.tsx:113-118 | A rejection after any number of optimistic key presses yields the pre-press state with the corrected position. The users map and space are untouched. |
| MetaversePlay.OnKey | metaverse/apps/frontend/src/pages/protected/PlayPage.tsx:156-192 | With no socket object or an unhandled key, nothing changes and nothing is sent. Otherwise the player moves one unit step in the key's direction, with no bounds check, whatever the socket's state. A move goes out iff the socket is open and the key is handled, and it carries the new position. Only the position ever changes. |
| MetaversePlay.OnKeyCanLeaveGrid | metaverse/apps/frontend/src/pages/protected/PlayPage.tsx:164-191 | From the origin, `Up` moves to (0, -1), off any grid, on any socket object. It sends that position only on an open socket. Nothing else changes. |
| MetaversePlay.SpaceJoinedEntries | metaverse/apps/frontend/src/pages/protected/PlayPage.tsx:76-86 | After `space-joined`, each listed user whose id is not repeated later in the list is known with its own id, x and y and the colour of its own pick. |
| MetaversePlay.JoinEmptySpace | metaverse/apps/frontend/src/pages/protected/PlayPage.tsx:76-90 | Joining, from the initial state, a space with no other participants gives the spawn position, an empty users map and the payload's space. |
| MetaversePlay.OnMsg | metaverse/apps/frontend/src/pages/protected/PlayPage.tsx:72-144 | `space-joined` sets the position to the spawn, the map keys to the listed ids and the space to the payload. `user-joined` installs a new entry with a fresh colour, replacing any old one. `movement` changes only x,y of a known entry and ignores an unknown id. `movement-rejected` overwrites only the position. `user-left` removes exactly its id. Peer events never touch the position or space. An unknown type changes nothing. |
| MetaversePlay.OnMsgKeepsValidUsers | metaverse/apps/frontend/src/pages/protected/PlayPage.tsx:76-127 | Every event keeps the users map keyed by each entry's own id, with palette colours. |
| MetaversePlay.MovementKeepsKeys | metaverse/apps/frontend/src/pages/protected/PlayPage.tsx:116-127 | `movement` never adds or removes a participant. |
| MetaversePlay.JoinThenLeaveRestores | metaverse/apps/frontend/src/pages/protected/PlayPage.tsx:93-113 | For a participant not yet known, `user-left` undoes `user-joined` exactly. |
| MetaversePlay.RunKeys | metaverse/apps/frontend/src/pages/protected/PlayPage.tsx:156-192 | Any sequence of key presses changes only the position. |
| MetaversePlay.RunKeysTotals | metaverse/apps/frontend/src/pages/protected/PlayPage.tsx:156-192 | With any socket object, the final position is the start plus the summed offsets of the handled keys. Only an open socket sends, exactly one move per handled key. On a connecting, closing or closed socket the player drifts and nothing is sent. Without a socket, nothing moves and nothing is sent. |
| MetaversePlay.RunKeysSendsWalk | metaverse/apps/frontend/src/pages/protected/PlayPage.tsx:161-191 | On an open socket, the moves sent form a walk of unit steps from the start to the final local position. |
| MetaversePlay.SpaceJoinedDiscardsDrift | metaverse/apps/frontend/src/pages/protected/PlayPage.tsx:62-78 | `space-joined` after any sequence of key presses gives the same state as `space-joined` without them. Local moves made before the join reply are reset to the spawn. |
| MetaversePlay.RejectionDiscardsOptimisticMoves | metaverse/apps/frontend/src/pages/protected/PlayPage.tsx:129-138 | A rejection after any number of optimistic key presses yields the pre-press state with the corrected position. |
| Divergence.KeyAgreesInsideGrid | frontend/src/pages/protected/PlayPage.tsx:181-212 | Away from the edges, a ready clamped client and the unclamped client take the same step and send the same move. |
| Divergence.KeyDivergesAtEdge | frontend/src/pages/protected/PlayPage.tsx:184-196 | At an edge, the clamped client stays put and sends nothing. The unclamped client sends the off-grid position. |
| Divergence.KeyDivergesBeforeJoin | frontend/src/pages/protected/PlayPage.tsx:176 | While the socket is open but `space-joined` has not yet set a user id, the first client ignores every key. The second client moves one unit and sends the new position. |
| Divergence.KeyAgreesIffClampAllowsStep | frontend/src/pages/protected/PlayPage.tsx:181-212 | For a ready first client on an open socket, at any position on or off the grid, both clients end in the same state and send the same move iff the clamped step equals the plain unit step. |
| Divergence.KeyDivergesOnUnopenedSocket | frontend/src/pages/protected/PlayPage.tsx:175 | With a socket that exists but is not open, the clamped client ignores the key entirely. The unclamped client moves the player one unit and sends nothing (metaverse/apps/frontend/src/pages/protected/PlayPage.tsx lines 157 and 185-188). Neither sends a move. |
| Divergence.MsgAgreesOutsideDivergence | metaverse/apps/frontend/src/pages/protected/PlayPage.tsx:72-144 | From any state, the two reducers agree on every event, with two exceptions: `movement` of an unknown id, and `user-joined` of a known id. |
| Divergence.MovementOfUnknownDiverges | metaverse/apps/frontend/src/pages/protected/PlayPage.tsx:116-127 | For `movement` of an unknown id, the clamped client creates an entry and the unclamped client ignores the event. |
| Divergence.RejoinAgreesIffSameColor | metaverse/apps/frontend/src/pages/protected/PlayPage.tsx:93-104 | For `user-joined` of a known id, the two clients agree iff the fresh colour pick equals the colour the first client keeps. |

## Left out

- WebSocket plumbing is not modelled. That covers socket creation, the `join` sent on open, the error and close toasts, closing on unmount, and `JSON.parse`. Events enter the model already parsed into `Msg`, and the socket enters only as its `readyState`.
- React state handling is not modelled: `useState`/`useRef` and effect dependency arrays (so each handler is taken to see the latest state), batched updates, and all rendering, including pixel transforms and the `|| 100` size fallback. `position` and `positionRef` are one field.
- Random colour choice is a parameter, `draw`. The model promises only that a picked colour comes from the palette.
- The unknown-type branch of the second client is modelled as leaving the state unchanged. Its console warning and toast are output only, so they are left out.
- The second client's `movement` handler mutates the entry object in place, and that object is shared with the previous map. The model replaces the entry in a new map. The aliasing of the old map is not observable through the state the handler returns.
- Coordinates are unbounded integers, while JavaScript numbers are doubles. Precision loss beyond 2^53 and non-integer payloads are not modelled.
- Navigation and authentication gating (redirects and the token read from `localStorage`) are browser I/O and are not modelled.
- The server side is not part of this model: the room registry, the server's bounds check and broadcast fan-out. Whether the server accepts or rejects a move is therefore not modelled.
- The browser's `WebSocket.send` is modelled by its effect on what reaches the server. On a connecting socket it throws, after the second client has already moved the player, and the exception ends the handler. On a closing or closed socket it discards the data. In all three cases the model returns no move.

## Behaviour worth knowing

- In the first client, a key press updates only the position. `currentUser.x`/`y` keep their last join or rejection value. Those fields are never rendered.
- In the second client, `user-joined` for a known id picks a new colour, so a participant's colour can change while it stays in the room. `Divergence.RejoinAgreesIffSameColor` states when the two clients agree.
- In the second client, key presses made while the socket is still connecting move the player without sending anything (`MetaversePlay.RunKeysTotals`). The join request has not been sent yet, and the `space-joined` reply that follows resets the position to the spawn (`MetaversePlay.SpaceJoinedDiscardsDrift`). On a closing or closed socket the drift stays local.
