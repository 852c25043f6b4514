/**
 * The records the host and the players exchange: the session snapshot, its
 * players, calls and claims, the message envelope carried over a peer data
 * connection, and the connection handle itself.
 */
module Protocol {
  import opened Wrappers
  import opened Brands

  /** Session lifecycle; nothing in the host ever moves a session to `Ended`. */
  datatype Status = Lobby | Playing | Ended

  /** A joined player, keyed by the peer identity of its connection. */
  datatype Player = Player(id: string, name: string, score: int)

  /** Claims are recorded and broadcast but never adjudicated. */
  datatype ClaimStatus = Pending

  /** A claim record; `id` is the host's clock reading when it arrived. */
  datatype Claim = Claim(id: int, playerId: string, player: string, claimType: string, status: ClaimStatus)

  /**
   * One call: the catalog item's fields plus the tagline picked for it.
   * The tagline is absent when the item has no taglines (an out-of-range
   * index reads `undefined`).
   */
  datatype Call = Call(brand: Brand, tagline: Option<string>)

  /**
   * The host's session record. The initial state has no `claims` field at
   * all, which `None` stands for.
   */
  datatype Session = Session(
    status: Status,
    currentTagline: Option<string>,
    history: seq<Call>,
    players: seq<Player>,
    claims: Option<seq<Claim>>,
    winner: Option<string>)

  /** What a player's claim carries: the claim kind and the player's display name. */
  datatype ClaimData = ClaimData(claimType: string, playerName: string)

  /**
   * The message envelope `{type, ...}`. `Other` is any envelope whose type
   * is none of the three the game uses.
   */
  datatype Message =
    | Join(name: string)
    | ClaimMsg(payload: ClaimData)
    | StateUpdate(state: Session)
    | Other(kind: string)

  /** JavaScript's `s || fallback` on a string: the empty string is falsy. */
  function OrDefault(s: string, fallback: string): (r: string)
    ensures s != "" ==> r == s
    ensures s == "" ==> r == fallback
    ensures fallback != "" ==> r != ""
  {
    if s == "" then fallback else s
  }

  /**
   * One end of a peer data connection. `peer` is the identity of the other
   * end, `playerName` the metadata given when it was requested, `open` is
   * maintained by the transport and `closed` records a local `close()`.
   */
  class Connection {
    const peer: string
    const playerName: string
    var open: bool
    var closed: bool

    constructor (peer: string, playerName: string)
      ensures this.peer == peer && this.playerName == playerName
      ensures !open && !closed
    {
      this.peer := peer;
      this.playerName := playerName;
      open := false;
      closed := false;
    }

    /** `conn.close()`. */
    method Close()
      modifies this
      ensures !open && closed
    {
      open := false;
      closed := true;
    }
  }

  /** A message handed to `conn.send`, with the connection it was sent on. */
  datatype Envelope = Envelope(to: Connection, msg: Message)
}
