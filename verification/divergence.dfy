/**
 * The two client implementations side by side: where they agree, and the
 * exact conditions under which they part ways.
 */
module Divergence {
  import opened Wrappers
  import opened Protocol
  import A = FrontendPlay
  import B = MetaversePlay

  /** The part of the first client's state that the second client also keeps. */
  function Forget(a: A.ClientState): B.ClientState
  {
    B.ClientState(a.pos, a.users, Some(a.space))
  }

  /**
   * Away from the edges, a ready first client and the second client take the
   * same step and send the same move.
   */
  lemma KeyAgreesInsideGrid(a: A.ClientState, k: Key)
    requires A.Ready(a, Open)
    requires InBounds(a.pos, a.space.width, a.space.height)
    requires InBounds(Translate(a.pos, k), a.space.width, a.space.height)
    ensures Forget(A.OnKey(a, k, Open).state) == B.OnKey(Forget(a), k, Open).state
    ensures A.OnKey(a, k, Open).sent == B.OnKey(Forget(a), k, Open).sent
  {
  }

  /**
   * At an edge, the first client stays put and sends nothing, while the
   * second steps off the grid and sends that off-grid position.
   */
  lemma KeyDivergesAtEdge(a: A.ClientState, k: Key)
    requires A.Ready(a, Open) && k != Other
    requires InBounds(a.pos, a.space.width, a.space.height)
    requires !InBounds(Translate(a.pos, k), a.space.width, a.space.height)
    ensures A.OnKey(a, k, Open) == A.KeyResult(a, None)
    ensures B.OnKey(Forget(a), k, Open).sent == Some(Translate(a.pos, k))
  {
  }

  /**
   * Between the socket opening and `space-joined`, the first client has no
   * user id yet and ignores every key, while the second moves the player and
   * sends the move.
   */
  lemma KeyDivergesBeforeJoin(a: A.ClientState, k: Key)
    requires a.me.userId == "" && k != Other
    ensures A.OnKey(a, k, Open) == A.KeyResult(a, None)
    ensures B.OnKey(Forget(a), k, Open) ==
      B.KeyResult(Forget(a).(pos := Translate(a.pos, k)), Some(Translate(a.pos, k)))
  {
  }

  /**
   * For a ready first client on an open socket, at any position on or off
   * the grid, the two clients take the same step and send the same move
   * exactly when the clamped step is the plain unit step.
   */
  lemma KeyAgreesIffClampAllowsStep(a: A.ClientState, k: Key)
    requires A.Ready(a, Open) && k != Other
    ensures (Forget(A.OnKey(a, k, Open).state) == B.OnKey(Forget(a), k, Open).state
             && A.OnKey(a, k, Open).sent == B.OnKey(Forget(a), k, Open).sent)
      <==> A.ClampedStep(a.pos, k, a.space.width, a.space.height) == Translate(a.pos, k)
  {
  }

  /**
   * A socket that exists but is not open: the first client ignores the key
   * entirely, while the second still moves the player one unit, and no move
   * reaches the server from either.
   */
  lemma KeyDivergesOnUnopenedSocket(a: A.ClientState, k: Key, sock: Socket)
    requires sock != NoSocket && sock != Open && k != Other
    ensures A.OnKey(a, k, sock) == A.KeyResult(a, None)
    ensures B.OnKey(Forget(a), k, sock) == B.KeyResult(Forget(a).(pos := Translate(a.pos, k)), None)
  {
  }

  /**
   * Both reducers agree on every event except a `movement` of an unknown id
   * and a `user-joined` of a known one.
   */
  lemma MsgAgreesOutsideDivergence(a: A.ClientState, m: Msg, draw: Draws)
    requires m.Movement? ==> m.userId in a.users
    requires m.UserJoined? ==> m.userId !in a.users
    ensures Forget(A.OnMsg(a, m, draw)) == B.OnMsg(Forget(a), m, draw)
  {
  }

  /**
   * A `movement` of an id neither client knows: the first client creates an
   * entry for it, the second ignores it.
   */
  lemma MovementOfUnknownDiverges(a: A.ClientState, id: string, x: int, y: int, draw: Draws)
    requires id !in a.users
    ensures id in A.OnMsg(a, Movement(id, x, y), draw).users
    ensures B.OnMsg(Forget(a), Movement(id, x, y), draw) == Forget(a)
  {
  }

  /**
   * A `user-joined` of an id already known: the two clients end in the same
   * state exactly when the second client's fresh colour pick happens to equal
   * the colour the first client keeps.
   */
  lemma RejoinAgreesIffSameColor(a: A.ClientState, id: string, x: int, y: int, draw: Draws)
    requires WellKeyed(a.users) && id in a.users
    ensures Forget(A.OnMsg(a, UserJoined(id, x, y), draw)) == B.OnMsg(Forget(a), UserJoined(id, x, y), draw)
      <==> a.users[id].color == Palette(draw(0))
  {
  }
}
