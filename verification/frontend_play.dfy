/**
 * The client of frontend/src/pages/protected/PlayPage.tsx: a keyboard step
 * that clamps to the grid and sends only real moves, and a reducer for the
 * server's events that merges updates into existing participants.
 */
module FrontendPlay {
  import opened Wrappers
  import opened Protocol

  /** The `currentUser` record: set on join and on rejection, not on key presses. */
  datatype CurrentUser = CurrentUser(x: int, y: int, userId: string)

  /**
   * The client's state: `pos` is the position reference (the rendered
   * position always follows it), `users` the other participants by id.
   */
  datatype ClientState = ClientState(
    pos: Pos,
    me: CurrentUser,
    users: map<string, UserRes>,
    space: SpaceInfo)

  /** The state before any event: origin, no user id, an empty 0 by 0 space. */
  const Initial: ClientState :=
    ClientState(Pos(0, 0), CurrentUser(0, 0, ""), map[],
                SpaceInfo("", 0, "", Some(""), "", Some(""), 0))

  /** The outcome of one key press: the new state and the `move` payload sent, if any. */
  datatype KeyResult = KeyResult(state: ClientState, sent: Option<Pos>)

  /** The position after one key press, each direction guarded by its edge test. */
  function ClampedStep(p: Pos, k: Key, width: int, height: int): Pos
  {
    match k
    case Up => if p.y > 0 then Pos(p.x, p.y - 1) else p
    case Down => if p.y < height - 1 then Pos(p.x, p.y + 1) else p
    case Left => if p.x > 0 then Pos(p.x - 1, p.y) else p
    case Right => if p.x < width - 1 then Pos(p.x + 1, p.y) else p
    case Other => p
  }

  /**
   * From a cell on the grid, the clamped step is the plain unit step when
   * that lands on the grid, and no move at all otherwise.
   */
  lemma ClampedStepIsGuardedTranslate(p: Pos, k: Key, width: int, height: int)
    requires InBounds(p, width, height)
    ensures ClampedStep(p, k, width, height) ==
      if InBounds(Translate(p, k), width, height) then Translate(p, k) else p
  {
  }

  /** Keys are acted on only with an open socket and after the join has named us. */
  predicate Ready(s: ClientState, sock: Socket)
  {
    sock == Open && s.me.userId != ""
  }

  /** The keydown handler. */
  function OnKey(s: ClientState, k: Key, sock: Socket): (r: KeyResult)
    // Only the position can change.
    ensures r.state == s.(pos := r.state.pos)
    // Not ready, or an unhandled key: nothing changes and nothing is sent.
    ensures !Ready(s, sock) || k == Other ==> r == KeyResult(s, None)
    // A move is sent exactly when the position changed, and carries the new position.
    ensures r.sent.Some? <==> r.state.pos != s.pos
    ensures r.sent.Some? ==> r.sent.value == r.state.pos
    // A move is one unit in the key's own direction.
    ensures r.sent.Some? ==> r.state.pos == Translate(s.pos, k) && UnitStep(s.pos, r.state.pos)
    // The grid is never left.
    ensures InBounds(s.pos, s.space.width, s.space.height) ==>
      InBounds(r.state.pos, s.space.width, s.space.height)
    // On the grid and ready, a move is sent iff the unit step stays on the grid.
    ensures InBounds(s.pos, s.space.width, s.space.height) && Ready(s, sock) && k != Other ==>
      (r.sent.Some? <==> InBounds(Translate(s.pos, k), s.space.width, s.space.height))
  {
    if !Ready(s, sock) || k == Other then KeyResult(s, None)
    else
      var p := ClampedStep(s.pos, k, s.space.width, s.space.height);
      if p != s.pos then KeyResult(s.(pos := p), Some(p)) else KeyResult(s, None)
  }

  /**
   * `handleUserUpdate`: an existing entry keeps its id and colour and takes the
   * new position; an unknown id gets a fresh entry with a picked colour.
   */
  function UpdateUser(users: map<string, UserRes>, id: string, x: int, y: int, c: ColorIndex)
    : (r: map<string, UserRes>)
    ensures r.Keys == users.Keys + {id}
    ensures OthersUnchanged(users, r, id)
    ensures r[id].x == x && r[id].y == y
    ensures id in users ==> r[id].id == users[id].id && r[id].color == users[id].color
    ensures id !in users ==> r[id] == UserRes(id, x, y, Palette(c))
    ensures ValidUsers(users) ==> ValidUsers(r)
  {
    if id in users then users[id := users[id].(x := x, y := y)]
    else users[id := UserRes(id, x, y, Palette(c))]
  }

  /** The `onmessage` switch; `draw` supplies the random colour picks. */
  function OnMsg(s: ClientState, m: Msg, draw: Draws): (r: ClientState)
    // Events about other participants never touch our own position, user or space.
    ensures !m.SpaceJoined? && !m.Rejected? ==>
      r.pos == s.pos && r.me == s.me && r.space == s.space
    // An unknown event changes nothing.
    ensures m.Unknown? ==> r == s
    // The join snapshot replaces everything.
    ensures m.SpaceJoined? ==>
      && r.pos == m.spawn
      && r.me == CurrentUser(m.spawn.x, m.spawn.y, m.userId)
      && r.users.Keys == SnapshotIds(m.users)
      && r.space == m.space
    // A rejection overwrites our position and touches nothing else.
    ensures m.Rejected? ==>
      r == s.(pos := Pos(m.x, m.y), me := CurrentUser(m.x, m.y, s.me.userId))
    // Joins and moves of others update or create exactly their own entry.
    ensures m.UserJoined? || m.Movement? ==>
      && r.users.Keys == s.users.Keys + {m.userId}
      && OthersUnchanged(s.users, r.users, m.userId)
      && r.users[m.userId].x == m.x && r.users[m.userId].y == m.y
    // A departure removes exactly that id.
    ensures m.UserLeft? ==>
      r.users.Keys == s.users.Keys - {m.userId} && OthersUnchanged(s.users, r.users, m.userId)
  {
    match m
    case SpaceJoined(spawn, userId, users, space) =>
      ClientState(spawn, CurrentUser(spawn.x, spawn.y, userId), UsersFromSnapshot(users, draw), space)
    case UserJoined(userId, x, y) =>
      s.(users := UpdateUser(s.users, userId, x, y, draw(0)))
    case Movement(userId, x, y) =>
      s.(users := UpdateUser(s.users, userId, x, y, draw(0)))
    case Rejected(x, y) =>
      s.(pos := Pos(x, y), me := s.me.(x := x, y := y))
    case UserLeft(userId) =>
      s.(users := Without(s.users, userId))
    case Unknown(_) =>
      s
  }

  /**
   * After `space-joined`, each listed user whose id is not repeated later in
   * the list is known with its own position and the colour of its own pick.
   */
  lemma SpaceJoinedEntries(s: ClientState, m: Msg, draw: Draws, i: nat)
    requires m.SpaceJoined? && i < |m.users| && LastBefore(m.users, i, |m.users|)
    ensures m.users[i].id in OnMsg(s, m, draw).users
    ensures OnMsg(s, m, draw).users[m.users[i].id] ==
      UserRes(m.users[i].id, m.users[i].x, m.users[i].y, Palette(draw(i)))
  {
    SnapshotEntry(m.users, draw, i);
  }

  /** Before `space-joined` has set a user id, no key press moves or sends. */
  lemma InitialIgnoresKeys(k: Key, sock: Socket)
    ensures OnKey(Initial, k, sock) == KeyResult(Initial, None)
  {
  }

  /** The invariant the client keeps on its users map. */
  lemma OnMsgKeepsValidUsers(s: ClientState, m: Msg, draw: Draws)
    requires ValidUsers(s.users)
    ensures ValidUsers(OnMsg(s, m, draw).users)
  {
  }

  /**
   * For a participant already known, `user-joined` and `movement` keep its id
   * and colour; only the coordinates change.
   */
  lemma UpdateKeepsIdentity(s: ClientState, m: Msg, draw: Draws)
    requires m.UserJoined? || m.Movement?
    requires m.userId in s.users
    ensures OnMsg(s, m, draw).users[m.userId] == s.users[m.userId].(x := m.x, y := m.y)
  {
  }

  /** `user-left` undoes the `user-joined` of a participant we did not know. */
  lemma JoinThenLeaveRestores(s: ClientState, id: string, x: int, y: int, draw: Draws)
    requires id !in s.users
    ensures OnMsg(OnMsg(s, UserJoined(id, x, y), draw), UserLeft(id), draw) == s
  {
  }

  /** The state after a sequence of key presses and the moves sent, in order. */
  datatype Run = Run(state: ClientState, sent: seq<Pos>)

  function RunKeys(s: ClientState, keys: seq<Key>, sock: Socket): (r: Run)
    ensures r.state == s.(pos := r.state.pos)
    ensures |r.sent| <= |keys|
    decreases |keys|
  {
    if |keys| == 0 then Run(s, [])
    else
      var step := OnKey(s, keys[0], sock);
      var rest := RunKeys(step.state, keys[1..], sock);
      Run(rest.state, (if step.sent.Some? then [step.sent.value] else []) + rest.sent)
  }

  /**
   * Starting on the grid, any sequence of key presses keeps the player on the
   * grid and every move sent lies on the grid.
   */
  lemma {:induction false} RunKeysStaysOnGrid(s: ClientState, keys: seq<Key>, sock: Socket)
    requires InBounds(s.pos, s.space.width, s.space.height)
    ensures InBounds(RunKeys(s, keys, sock).state.pos, s.space.width, s.space.height)
    ensures forall i | 0 <= i < |RunKeys(s, keys, sock).sent| ::
      InBounds(RunKeys(s, keys, sock).sent[i], s.space.width, s.space.height)
    decreases |keys|
  {
    if |keys| > 0 {
      var step := OnKey(s, keys[0], sock);
      RunKeysStaysOnGrid(step.state, keys[1..], sock);
    }
  }

  /**
   * The moves sent by a sequence of key presses form a walk of unit steps
   * from the starting position to the final one: the server sees every
   * optimistic move, and no duplicates.
   */
  lemma {:induction false} RunKeysSendsWalk(s: ClientState, keys: seq<Key>, sock: Socket)
    ensures UnitWalk(s.pos, RunKeys(s, keys, sock).sent, RunKeys(s, keys, sock).state.pos)
    decreases |keys|
  {
    if |keys| > 0 {
      var step := OnKey(s, keys[0], sock);
      RunKeysSendsWalk(step.state, keys[1..], sock);
      var rest := RunKeys(step.state, keys[1..], sock);
      if step.sent.Some? {
        assert ([step.sent.value] + rest.sent)[1..] == rest.sent;
      } else {
        assert [] + rest.sent == rest.sent;
      }
    }
  }

  /**
   * Reconciliation: a rejection after any number of optimistic key presses
   * leaves exactly the state before them, moved to the corrected position.
   */
  lemma RejectionDiscardsOptimisticMoves(
    s: ClientState, keys: seq<Key>, sock: Socket, x: int, y: int, draw: Draws)
    ensures OnMsg(RunKeys(s, keys, sock).state, Rejected(x, y), draw) ==
      s.(pos := Pos(x, y), me := s.me.(x := x, y := y))
  {
  }
}
