/**
 * Types and helpers shared by both client implementations of the presence
 * and movement protocol: grid positions, keyboard keys, the already-parsed
 * server events, the per-participant record the client keeps, and the
 * colour palette.
 */
module Protocol {
  import opened Wrappers

  /** A grid cell, as carried by `spawn`, `move` and `movement-rejected`. */
  datatype Pos = Pos(x: int, y: int)

  /** The movement a keydown event asks for; `Other` is every unhandled key. */
  datatype Key = Up | Down | Left | Right | Other

  /** The `readyState` of the client's socket, with `NoSocket` for a null reference. */
  datatype Socket = NoSocket | Connecting | Open | Closing | Closed

  /** One entry of the `users` array of `space-joined`. */
  datatype WireUser = WireUser(id: string, x: int, y: int)

  /** The `space` object of `space-joined`; `mapId` and `thumbnail` are optional. */
  datatype SpaceInfo = SpaceInfo(
    creatorId: string,
    height: int,
    id: string,
    mapId: Option<string>,
    name: string,
    thumbnail: Option<string>,
    width: int)

  /** A server-to-client event after JSON decoding, discriminated by its `type`. */
  datatype Msg =
    | SpaceJoined(spawn: Pos, userId: string, users: seq<WireUser>, space: SpaceInfo)
    | UserJoined(userId: string, x: int, y: int)
    | Movement(userId: string, x: int, y: int)
    | Rejected(x: int, y: int)
    | UserLeft(userId: string)
    | Unknown(tag: string)

  /** What the client remembers about another participant. */
  datatype UserRes = UserRes(id: string, x: int, y: int, color: string)

  /** The ten display colours a participant can be given. */
  const COLORS: seq<string> := [
    "#FF6B6B", "#4ECDC4", "#45B7D1", "#96CEB4", "#FFEEAD",
    "#D4A5A5", "#9B59B6", "#3498DB", "#E67E22", "#1ABC9C"
  ]

  /** `Math.floor(Math.random() * COLORS.length)`: an index into the palette. */
  type ColorIndex = i: nat | i < |COLORS|

  /**
   * The random colour picks made while one event is handled: `draw(i)` is the
   * result of the i-th pick.
   */
  type Draws = nat -> ColorIndex

  function Palette(c: ColorIndex): (color: string)
    ensures color in COLORS
  {
    COLORS[c]
  }

  /** The switch labels of both keydown handlers: arrow keys and lower-case WASD. */
  function ParseKey(name: string): Key
  {
    if name == "ArrowUp" || name == "w" then Up
    else if name == "ArrowDown" || name == "s" then Down
    else if name == "ArrowLeft" || name == "a" then Left
    else if name == "ArrowRight" || name == "d" then Right
    else Other
  }

  /** The key names that select each direction. */
  function KeyNames(k: Key): set<string>
  {
    match k
    case Up => {"ArrowUp", "w"}
    case Down => {"ArrowDown", "s"}
    case Left => {"ArrowLeft", "a"}
    case Right => {"ArrowRight", "d"}
    case Other => {}
  }

  /**
   * ParseKey recognises exactly the eight listed names, each for its own
   * direction; upper-case WASD and every other name are ignored.
   */
  lemma ParseKeyExact(name: string, k: Key)
    requires k != Other
    ensures ParseKey(name) == k <==> name in KeyNames(k)
    ensures ParseKey(name) == Other <==>
      name !in KeyNames(Up) + KeyNames(Down) + KeyNames(Left) + KeyNames(Right)
  {
  }

  /** The unit offset of each direction; `Up` decreases y. */
  function Delta(k: Key): (d: Pos)
    ensures k == Other <==> d == Pos(0, 0)
    ensures k != Other ==> (d.x == 0) != (d.y == 0)
    ensures -1 <= d.x <= 1 && -1 <= d.y <= 1
  {
    match k
    case Up => Pos(0, -1)
    case Down => Pos(0, 1)
    case Left => Pos(-1, 0)
    case Right => Pos(1, 0)
    case Other => Pos(0, 0)
  }

  /** The cell one unit away from `p` in the direction of `k`, with no bounds check. */
  function Translate(p: Pos, k: Key): Pos
  {
    Pos(p.x + Delta(k).x, p.y + Delta(k).y)
  }

  /** `b` is a four-neighbour of `a`: exactly one coordinate differs, by exactly one. */
  predicate UnitStep(a: Pos, b: Pos)
  {
    || (a.x == b.x && (b.y == a.y + 1 || b.y == a.y - 1))
    || (a.y == b.y && (b.x == a.x + 1 || b.x == a.x - 1))
  }

  /** `moves` is a walk of unit steps starting next to `start` and ending at `end`. */
  predicate UnitWalk(start: Pos, moves: seq<Pos>, end: Pos)
    decreases |moves|
  {
    if |moves| == 0 then end == start
    else UnitStep(start, moves[0]) && UnitWalk(moves[0], moves[1..], end)
  }

  /** `p` lies on a grid of the given width and height. */
  predicate InBounds(p: Pos, width: int, height: int)
  {
    0 <= p.x < width && 0 <= p.y < height
  }

  lemma TranslateIsUnitStep(p: Pos, k: Key)
    requires k != Other
    ensures UnitStep(p, Translate(p, k))
    ensures Translate(p, k) != p
  {
  }

  /** Every entry of a users map is stored under its own id. */
  predicate WellKeyed(users: map<string, UserRes>)
  {
    forall k | k in users :: users[k].id == k
  }

  /** Every entry of a users map has a colour taken from the palette. */
  predicate PaletteColors(users: map<string, UserRes>)
  {
    forall k | k in users :: users[k].color in COLORS
  }

  /** The client's invariant on its map of other participants. */
  predicate ValidUsers(users: map<string, UserRes>)
  {
    WellKeyed(users) && PaletteColors(users)
  }

  /** Every key other than `id` is present in `m'` iff in `m`, with the same entry. */
  predicate OthersUnchanged(m: map<string, UserRes>, m': map<string, UserRes>, id: string)
  {
    && (forall k | k in m && k != id :: k in m' && m'[k] == m[k])
    && (forall k | k in m' && k != id :: k in m)
  }

  /** `Map.delete(id)`: removing an absent id is allowed and changes nothing. */
  function Without(users: map<string, UserRes>, id: string): (r: map<string, UserRes>)
    ensures id !in r
    ensures OthersUnchanged(users, r, id)
    ensures id !in users ==> r == users
    ensures ValidUsers(users) ==> ValidUsers(r)
  {
    users - {id}
  }

  /** The ids listed among the first `n` users of a `space-joined` snapshot. */
  function IdsBefore(us: seq<WireUser>, n: nat): set<string>
    requires n <= |us|
    decreases n
  {
    if n == 0 then {} else IdsBefore(us, n - 1) + {us[n - 1].id}
  }

  /** The ids listed in a `space-joined` snapshot. */
  function SnapshotIds(us: seq<WireUser>): set<string>
  {
    IdsBefore(us, |us|)
  }

  /** An id is among the first `n` listed iff some user before index `n` carries it. */
  lemma {:induction false} IdsBeforeMembership(us: seq<WireUser>, n: nat, id: string)
    requires n <= |us|
    ensures id in IdsBefore(us, n) <==> exists i | 0 <= i < n :: us[i].id == id
    decreases n
  {
    if n > 0 {
      IdsBeforeMembership(us, n - 1, id);
    }
  }

  /** The entry the snapshot handler stores for the i-th listed user. */
  function SnapshotUser(us: seq<WireUser>, draw: Draws, i: nat): UserRes
    requires i < |us|
  {
    UserRes(us[i].id, us[i].x, us[i].y, Palette(draw(i)))
  }

  /**
   * The users map after the snapshot handler's loop has stored the first `n`
   * listed users, in order, each under its id; a later duplicate id
   * overwrites an earlier one.
   */
  function UsersAfter(us: seq<WireUser>, draw: Draws, n: nat): (r: map<string, UserRes>)
    requires n <= |us|
    ensures r.Keys == IdsBefore(us, n)
    decreases n
  {
    if n == 0 then map[]
    else
      UsersAfter(us, draw, n - 1)[us[n - 1].id := SnapshotUser(us, draw, n - 1)]
  }

  /** Storing an entry under its own id with a palette colour keeps the users-map invariant. */
  lemma InsertKeepsValid(m: map<string, UserRes>, k: string, v: UserRes)
    requires ValidUsers(m) && v.id == k && v.color in COLORS
    ensures ValidUsers(m[k := v])
  {
  }

  /** Every entry the snapshot loop stores sits under its own id with a palette colour. */
  lemma {:induction false} UsersAfterValid(us: seq<WireUser>, draw: Draws, n: nat)
    requires n <= |us|
    ensures ValidUsers(UsersAfter(us, draw, n))
    decreases n
  {
    if n > 0 {
      UsersAfterValid(us, draw, n - 1);
      InsertKeepsValid(UsersAfter(us, draw, n - 1), us[n - 1].id, SnapshotUser(us, draw, n - 1));
    }
  }

  /** The users map built from a whole `space-joined` snapshot. */
  function UsersFromSnapshot(us: seq<WireUser>, draw: Draws): (r: map<string, UserRes>)
    ensures r.Keys == SnapshotIds(us)
    ensures ValidUsers(r)
  {
    UsersAfterValid(us, draw, |us|);
    UsersAfter(us, draw, |us|)
  }

  /** No user listed after index `i`, up to `n`, carries the id of user `i`. */
  predicate LastBefore(us: seq<WireUser>, i: nat, n: nat)
    requires i < n <= |us|
  {
    forall j | i < j < n :: us[j].id != us[i].id
  }

  lemma {:induction false} EntryAfter(us: seq<WireUser>, draw: Draws, i: nat, n: nat)
    requires i < n <= |us| && LastBefore(us, i, n)
    ensures us[i].id in UsersAfter(us, draw, n)
    ensures UsersAfter(us, draw, n)[us[i].id] == SnapshotUser(us, draw, i)
    decreases n
  {
    if i < n - 1 {
      assert LastBefore(us, i, n - 1);
      EntryAfter(us, draw, i, n - 1);
    }
  }

  /**
   * The entry stored for a snapshot user whose id does not occur again later
   * in the list carries exactly that user's id and position and the colour of
   * its own pick.
   */
  lemma SnapshotEntry(us: seq<WireUser>, draw: Draws, i: nat)
    requires i < |us| && LastBefore(us, i, |us|)
    ensures us[i].id in UsersFromSnapshot(us, draw)
    ensures UsersFromSnapshot(us, draw)[us[i].id] == UserRes(us[i].id, us[i].x, us[i].y, Palette(draw(i)))
  {
    EntryAfter(us, draw, i, |us|);
  }

  /** An id listed at position `n` that is distinct from all earlier ones is new. */
  lemma FreshId(us: seq<WireUser>, n: nat)
    requires n < |us|
    requires forall i | 0 <= i < n :: us[i].id != us[n].id
    ensures us[n].id !in IdsBefore(us, n)
  {
    IdsBeforeMembership(us, n, us[n].id);
  }

  lemma {:induction false} IdsBeforeSizeDistinct(us: seq<WireUser>, n: nat)
    requires n <= |us|
    requires forall i, j | 0 <= i < j < n :: us[i].id != us[j].id
    ensures |IdsBefore(us, n)| == n
    decreases n
  {
    if n > 0 {
      IdsBeforeSizeDistinct(us, n - 1);
      FreshId(us, n - 1);
    }
  }

  /** With distinct ids, the snapshot map has one entry per listed user. */
  lemma SnapshotSizeDistinct(us: seq<WireUser>, draw: Draws)
    requires forall i, j | 0 <= i < j < |us| :: us[i].id != us[j].id
    ensures |UsersFromSnapshot(us, draw)| == |us|
  {
    var r := UsersFromSnapshot(us, draw);
    IdsBeforeSizeDistinct(us, |us|);
    assert |r| == |r.Keys|;
  }
}
