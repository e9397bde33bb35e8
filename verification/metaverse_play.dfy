/**
 * The client of metaverse/apps/frontend/src/pages/protected/PlayPage.tsx: a
 * keyboard step with no bounds check that moves on every handled key once a
 * socket object exists, and sends whenever that socket is open, and a
 * reducer that overwrites on `user-joined` and ignores `movement` of unknown
 * participants.
 */
module MetaversePlay {
  import opened Wrappers
  import opened Protocol

  /** The client's state; `space` stays unset until the join snapshot arrives. */
  datatype ClientState = ClientState(
    pos: Pos,
    users: map<string, UserRes>,
    space: Option<SpaceInfo>)

  /** The state before any event: origin, nobody else known, no space yet. */
  const Initial: ClientState := ClientState(Pos(0, 0), map[], None)

  /** The outcome of one key press: the new state and the `move` payload sent, if any. */
  datatype KeyResult = KeyResult(state: ClientState, sent: Option<Pos>)

  /**
   * The keydown handler. Any socket object at all, whatever its ready state,
   * lets a handled key move the player one unit: the position is updated
   * before `send` is called. The move reaches the wire only on an open
   * socket; `send` throws while the socket is connecting, and a closing or
   * closed socket discards the data.
   */
  function OnKey(s: ClientState, k: Key, sock: Socket): (r: KeyResult)
    ensures r.state == s.(pos := r.state.pos)
    // No socket, or an unhandled key: nothing changes and nothing is sent.
    ensures sock == NoSocket || k == Other ==> r == KeyResult(s, None)
    // Otherwise the player moves one unit in the key's direction, unchecked.
    ensures sock != NoSocket && k != Other ==>
      r.state.pos == Translate(s.pos, k) && UnitStep(s.pos, r.state.pos)
    // A move goes out exactly on an open socket, carrying the new position.
    ensures r.sent.Some? <==> sock == Open && k != Other
    ensures r.sent.Some? ==> r.sent.value == r.state.pos
  {
    if sock == NoSocket || k == Other then KeyResult(s, None)
    else
      var p := Translate(s.pos, k);
      KeyResult(s.(pos := p), if sock == Open then Some(p) else None)
  }

  /**
   * Without a bounds check, one key press can leave the grid: Up from the
   * origin moves to (0, -1) on any socket, and sends it on an open one.
   */
  lemma OnKeyCanLeaveGrid(s: ClientState, sock: Socket)
    requires s.pos == Pos(0, 0) && sock != NoSocket
    ensures OnKey(s, Up, sock) ==
      KeyResult(s.(pos := Pos(0, -1)), if sock == Open then Some(Pos(0, -1)) else None)
  {
    var p := Translate(s.pos, Up);
    assert p == Pos(0, -1);
    if sock == Open {
      assert OnKey(s, Up, sock) == KeyResult(s.(pos := p), Some(p));
    } else {
      assert OnKey(s, Up, sock) == KeyResult(s.(pos := p), None);
    }
  }

  /** The `onmessage` switch; `draw` supplies the random colour picks. */
  function OnMsg(s: ClientState, m: Msg, draw: Draws): (r: ClientState)
    // Events about other participants never touch our own position or space.
    ensures !m.SpaceJoined? && !m.Rejected? ==> r.pos == s.pos && r.space == s.space
    ensures m.Unknown? ==> r == s
    // The join snapshot replaces everything; its userId is not kept.
    ensures m.SpaceJoined? ==>
      && r.pos == m.spawn
      && r.users.Keys == SnapshotIds(m.users)
      && r.space == Some(m.space)
    // A rejection overwrites our position and touches nothing else.
    ensures m.Rejected? ==> r == s.(pos := Pos(m.x, m.y))
    // A join always installs a fresh entry, replacing any earlier one.
    ensures m.UserJoined? ==>
      && r.users.Keys == s.users.Keys + {m.userId}
      && OthersUnchanged(s.users, r.users, m.userId)
      && r.users[m.userId] == UserRes(m.userId, m.x, m.y, Palette(draw(0)))
    // A move of an unknown participant is ignored; of a known one, only its coordinates change.
    ensures m.Movement? && m.userId !in s.users ==> r == s
    ensures m.Movement? && m.userId in s.users ==>
      && r.users.Keys == s.users.Keys
      && OthersUnchanged(s.users, r.users, m.userId)
      && r.users[m.userId] == s.users[m.userId].(x := m.x, y := m.y)
    // A departure removes exactly that id.
    ensures m.UserLeft? ==>
      r.users.Keys == s.users.Keys - {m.userId} && OthersUnchanged(s.users, r.users, m.userId)
  {
    match m
    case SpaceJoined(spawn, _, users, space) =>
      ClientState(spawn, UsersFromSnapshot(users, draw), Some(space))
    case UserJoined(userId, x, y) =>
      s.(users := s.users[userId := UserRes(userId, x, y, Palette(draw(0)))])
    case UserLeft(userId) =>
      s.(users := Without(s.users, userId))
    case Movement(userId, x, y) =>
      if userId in s.users then s.(users := s.users[userId := s.users[userId].(x := x, y := y)])
      else s
    case Rejected(x, y) =>
      s.(pos := Pos(x, y))
    case Unknown(_) =>
      s
  }

  /**
   * After `space-joined`, each listed user whose id is not repeated later in
   * the list is known with its own position and the colour of its own pick.
   */
  lemma SpaceJoinedEntries(s: ClientState, m: Msg, draw: Draws, i: nat)
    requires m.SpaceJoined? && i < |m.users| && LastBefore(m.users, i, |m.users|)
    ensures m.users[i].id in OnMsg(s, m, draw).users
    ensures OnMsg(s, m, draw).users[m.users[i].id] ==
      UserRes(m.users[i].id, m.users[i].x, m.users[i].y, Palette(draw(i)))
  {
    SnapshotEntry(m.users, draw, i);
  }

  /** Joining a space nobody else is in, from the start, knows no other participant. */
  lemma JoinEmptySpace(spawn: Pos, userId: string, space: SpaceInfo, draw: Draws)
    ensures OnMsg(Initial, SpaceJoined(spawn, userId, [], space), draw) ==
      ClientState(spawn, map[], Some(space))
  {
  }

  lemma OnMsgKeepsValidUsers(s: ClientState, m: Msg, draw: Draws)
    requires ValidUsers(s.users)
    ensures ValidUsers(OnMsg(s, m, draw).users)
  {
  }

  /** `movement` never adds a participant: the set of known ids is unchanged. */
  lemma MovementKeepsKeys(s: ClientState, id: string, x: int, y: int, draw: Draws)
    ensures OnMsg(s, Movement(id, x, y), draw).users.Keys == s.users.Keys
  {
  }

  /** `user-left` undoes the `user-joined` of a participant we did not know. */
  lemma JoinThenLeaveRestores(s: ClientState, id: string, x: int, y: int, draw: Draws)
    requires id !in s.users
    ensures OnMsg(OnMsg(s, UserJoined(id, x, y), draw), UserLeft(id), draw) == s
  {
  }

  /** The number of handled keys in a sequence. */
  function CountMoves(keys: seq<Key>): nat
    decreases |keys|
  {
    if |keys| == 0 then 0
    else (if keys[0] != Other then 1 else 0) + CountMoves(keys[1..])
  }

  /** The summed unit offsets of a sequence of keys. */
  function Displacement(keys: seq<Key>): Pos
    decreases |keys|
  {
    if |keys| == 0 then Pos(0, 0)
    else
      var rest := Displacement(keys[1..]);
      Pos(Delta(keys[0]).x + rest.x, Delta(keys[0]).y + rest.y)
  }

  /** The state after a sequence of key presses and the moves sent, in order. */
  datatype Run = Run(state: ClientState, sent: seq<Pos>)

  function RunKeys(s: ClientState, keys: seq<Key>, sock: Socket): (r: Run)
    ensures r.state == s.(pos := r.state.pos)
    decreases |keys|
  {
    if |keys| == 0 then Run(s, [])
    else
      var step := OnKey(s, keys[0], sock);
      var rest := RunKeys(step.state, keys[1..], sock);
      Run(rest.state, (if step.sent.Some? then [step.sent.value] else []) + rest.sent)
  }

  /**
   * With any socket object, the final position is the start plus the summed
   * offsets of the handled keys. Only an open socket sends, one move per
   * handled key; on any other socket the player moves locally with nothing
   * sent. Without a socket nothing happens.
   */
  lemma {:induction false} RunKeysTotals(s: ClientState, keys: seq<Key>, sock: Socket)
    ensures sock != NoSocket ==>
      RunKeys(s, keys, sock).state.pos ==
        Pos(s.pos.x + Displacement(keys).x, s.pos.y + Displacement(keys).y)
    ensures sock == Open ==> |RunKeys(s, keys, sock).sent| == CountMoves(keys)
    ensures sock != Open ==> RunKeys(s, keys, sock).sent == []
    ensures sock == NoSocket ==> RunKeys(s, keys, sock) == Run(s, [])
    decreases |keys|
  {
    if |keys| > 0 {
      var step := OnKey(s, keys[0], sock);
      RunKeysTotals(step.state, keys[1..], sock);
    }
  }

  /**
   * On an open socket, the moves sent form a walk of unit steps from the
   * starting position to the final one: every handled key is one step, sent.
   */
  lemma {:induction false} RunKeysSendsWalk(s: ClientState, keys: seq<Key>, sock: Socket)
    ensures sock == Open ==>
      UnitWalk(s.pos, RunKeys(s, keys, sock).sent, RunKeys(s, keys, sock).state.pos)
    decreases |keys|
  {
    if |keys| > 0 && sock == Open {
      var step := OnKey(s, keys[0], sock);
      RunKeysSendsWalk(step.state, keys[1..], sock);
      var rest := RunKeys(step.state, keys[1..], sock);
      if step.sent.Some? {
        assert ([step.sent.value] + rest.sent)[1..] == rest.sent;
      } else {
        assert [] + rest.sent == rest.sent;
      }
    }
  }

  /**
   * The join snapshot discards any local drift: `space-joined` after any key
   * presses gives the same state as `space-joined` without them. The join
   * request goes out only once the socket opens, so moves made while it is
   * still connecting are reset to the spawn when the reply arrives.
   */
  lemma SpaceJoinedDiscardsDrift(
    s: ClientState, keys: seq<Key>, sock: Socket,
    spawn: Pos, userId: string, users: seq<WireUser>, space: SpaceInfo, draw: Draws)
    ensures OnMsg(RunKeys(s, keys, sock).state, SpaceJoined(spawn, userId, users, space), draw) ==
      OnMsg(s, SpaceJoined(spawn, userId, users, space), draw)
  {
  }

  /**
   * Reconciliation: a rejection after any number of optimistic key presses
   * leaves exactly the state before them, moved to the corrected position.
   */
  lemma RejectionDiscardsOptimisticMoves(
    s: ClientState, keys: seq<Key>, sock: Socket, x: int, y: int, draw: Draws)
    ensures OnMsg(RunKeys(s, keys, sock).state, Rejected(x, y), draw) == s.(pos := Pos(x, y))
  {
  }
}
