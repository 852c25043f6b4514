/**
 * A player's connection to the host: a small state machine over
 * `isConnected`, `connecting`, `error`, the stored connection and the
 * attempt latch, driven by `connectToHost`, the connection's `open`,
 * `data`, `close` and `error` events, the 10-second timeout, and
 * `sendClaim`.
 */
module GamePlayer {
  import opened Wrappers
  import opened Protocol

  const TIMEOUT_ERROR: string := "Connection timeout - host may not be available"
  const DISCONNECTED_ERROR: string := "Disconnected from host"
  const CONNECT_FAILED_ERROR: string := "Connection failed"

  /** A `peer.connect(hostId, { reliable: true, metadata: { playerName } })` request. */
  datatype ConnectRequest = ConnectRequest(hostId: string, playerName: string)

  class Client {
    /** The last snapshot received from the host, if any. */
    var gameState: Option<Session>
    /** The connection stored when it opened. */
    var connection: Option<Connection>
    var isConnected: bool
    var error: Option<string>
    var connecting: bool
    /** `connectionAttemptRef.current`: an attempt is in flight or connected. */
    var attempt: bool
    /** The connections whose 10-second timeout has not been cleared or fired. */
    var timers: set<Connection>
    /** Every `peer.connect` issued, in order. */
    var connects: seq<ConnectRequest>
    /** Every `conn.send` the player has made, in order. */
    var sent: seq<Envelope>

    ghost predicate Valid()
      reads this
    {
      && (connecting ==> attempt && !isConnected)
      && (isConnected <==> connection.Some?)
    }

    constructor ()
      ensures Valid()
      ensures gameState == None && connection == None && !isConnected && error == None
      ensures !connecting && !attempt && timers == {} && connects == [] && sent == []
    {
      gameState := None;
      connection := None;
      isConnected := false;
      error := None;
      connecting := false;
      attempt := false;
      timers := {};
      connects := [];
      sent := [];
    }

    /** `loading`: the peer is still starting or an attempt is under way. */
    predicate Loading(peerLoading: bool)
      reads this
      ensures Loading(peerLoading) <==> peerLoading || connecting
    {
      peerLoading || connecting
    }

    /**
     * `connectToHost(hostId, playerName)`. Nothing happens without a peer,
     * while the latch is set or when already connected. Otherwise the
     * attempt is latched, `connecting` set, the error cleared, one connect
     * issued carrying the player name, and its timeout armed; the new
     * connection is returned.
     */
    method ConnectToHost(peerPresent: bool, hostId: string, playerName: string) returns (conn: Option<Connection>)
      requires Valid()
      modifies this
      ensures Valid()
      ensures var accepted := peerPresent && !old(attempt) && !old(isConnected);
        && (conn.Some? <==> accepted)
        && (!accepted ==>
              && connecting == old(connecting) && error == old(error) && attempt == old(attempt)
              && connects == old(connects) && timers == old(timers))
        && (accepted ==>
              && fresh(conn.value) && !conn.value.open
              && conn.value.peer == hostId && conn.value.playerName == playerName
              && connecting && error == None && attempt
              && connects == old(connects) + [ConnectRequest(hostId, playerName)]
              && timers == old(timers) + {conn.value})
      ensures gameState == old(gameState) && connection == old(connection) && isConnected == old(isConnected)
      ensures sent == old(sent)
    {
      if !peerPresent {
        return None;
      }
      if attempt || isConnected {
        return None;
      }
      connecting := true;
      error := None;
      attempt := true;
      var c := new Connection(hostId, playerName);
      connects := connects + [ConnectRequest(hostId, playerName)];
      timers := timers + {c};
      conn := Some(c);
    }

    /**
     * The timeout of `conn` fires. Unless it was cleared, and unless the
     * connection opened meanwhile, it reports the timeout, ends the attempt
     * and closes the connection.
     */
    method OnTimeout(conn: Connection)
      requires Valid()
      modifies this, conn
      ensures Valid()
      ensures timers == old(timers) - {conn}
      ensures var fires := conn in old(timers) && !old(conn.open);
        && (fires ==>
              && error == Some(TIMEOUT_ERROR) && !connecting && !attempt
              && !conn.open && conn.closed)
        && (!fires ==>
              && error == old(error) && connecting == old(connecting) && attempt == old(attempt)
              && conn.open == old(conn.open) && conn.closed == old(conn.closed))
      ensures gameState == old(gameState) && connection == old(connection) && isConnected == old(isConnected)
      ensures connects == old(connects) && sent == old(sent)
    {
      if conn !in timers {
        return;
      }
      timers := timers - {conn};
      if !conn.open {
        error := Some(TIMEOUT_ERROR);
        connecting := false;
        attempt := false;
        conn.Close();
      }
    }

    /**
     * `conn` opened: the timeout is cleared, the player is connected with
     * `conn` stored, and one JOIN carrying the player name is sent. The latch
     * stays set.
     */
    method OnOpen(conn: Connection)
      requires Valid()
      modifies this
      ensures Valid()
      ensures timers == old(timers) - {conn}
      ensures isConnected && !connecting && connection == Some(conn)
      ensures sent == old(sent) + [Envelope(conn, Join(conn.playerName))]
      ensures attempt == old(attempt) && error == old(error) && gameState == old(gameState)
      ensures connects == old(connects)
    {
      timers := timers - {conn};
      isConnected := true;
      connecting := false;
      connection := Some(conn);
      sent := sent + [Envelope(conn, Join(conn.playerName))];
    }

    /** A message arrived: only a STATE_UPDATE replaces the game state, wholesale. */
    method OnData(conn: Connection, msg: Message)
      modifies this`gameState
      ensures msg.StateUpdate? ==> gameState == Some(msg.state)
      ensures !msg.StateUpdate? ==> gameState == old(gameState)
    {
      if msg.StateUpdate? {
        gameState := Some(msg.state);
      }
    }

    /** `conn` closed: disconnected, nothing stored, latch cleared, and the error says so. */
    method OnClose(conn: Connection)
      requires Valid()
      modifies this
      ensures Valid()
      ensures timers == old(timers) - {conn}
      ensures !isConnected && !connecting && connection == None && !attempt
      ensures error == Some(DISCONNECTED_ERROR)
      ensures gameState == old(gameState) && connects == old(connects) && sent == old(sent)
    {
      timers := timers - {conn};
      isConnected := false;
      connecting := false;
      connection := None;
      attempt := false;
      error := Some(DISCONNECTED_ERROR);
    }

    /**
     * `conn` reported an error: its message (or a generic one when empty)
     * becomes the error, and the attempt ends; the connected flag and the
     * stored connection are left as they were.
     */
    method OnError(conn: Connection, message: string)
      requires Valid()
      modifies this
      ensures Valid()
      ensures timers == old(timers) - {conn}
      ensures error == Some(OrDefault(message, CONNECT_FAILED_ERROR))
      ensures !connecting && !attempt
      ensures isConnected == old(isConnected) && connection == old(connection)
      ensures gameState == old(gameState) && connects == old(connects) && sent == old(sent)
    {
      timers := timers - {conn};
      error := Some(OrDefault(message, CONNECT_FAILED_ERROR));
      connecting := false;
      attempt := false;
    }

    /** `sendClaim(claimData)`: one CLAIM on the stored connection if it is open, else nothing. */
    method SendClaim(data: ClaimData)
      modifies this`sent
      ensures connection.Some? && connection.value.open ==>
        sent == old(sent) + [Envelope(connection.value, ClaimMsg(data))]
      ensures !(connection.Some? && connection.value.open) ==> sent == old(sent)
    {
      if connection.Some? && connection.value.open {
        sent := sent + [Envelope(connection.value, ClaimMsg(data))];
      }
    }
  }

  /**
   * Once the peer is ready, the loading indicator reflects the connection
   * attempt alone, and it never shows for a player who is connected.
   */
  lemma LoadingOnceReady(c: Client, peerLoading: bool, connectionStatus: string)
    requires c.Valid()
    requires PeerReady(peerLoading, connectionStatus)
    ensures c.Loading(peerLoading) <==> c.connecting
    ensures c.Loading(peerLoading) ==> c.attempt && !c.isConnected
  {
  }

  /** `peerReady`: the peer has finished loading and its signalling link is up. */
  function PeerReady(peerLoading: bool, connectionStatus: string): (ready: bool)
    ensures ready ==> !peerLoading
    ensures ready <==> !peerLoading && connectionStatus == "connected"
  {
    !peerLoading && connectionStatus == "connected"
  }
}
