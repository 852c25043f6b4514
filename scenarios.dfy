/**
 * End-to-end runs of the host, the caller and the player client put
 * together, each checked against what the game promises.
 */
module Scenarios {
  import opened Wrappers
  import opened Protocol
  import opened GameHost
  import opened GamePlayer

  /** Two `connectToHost` calls while the first attempt is pending issue exactly one connect. */
  method ConnectTwiceWhilePending(hostId: string, playerName: string)
    returns (first: Option<Connection>, second: Option<Connection>, issued: nat)
    ensures first.Some? && second.None?
    ensures issued == 1
  {
    var client := new Client();
    first := client.ConnectToHost(true, hostId, playerName);
    second := client.ConnectToHost(true, hostId, playerName);
    issued := |client.connects|;
  }

  /**
   * The host opens a session for one open player connection, starts the
   * game and makes a call; the snapshot that reaches the player carries a
   * one-entry history and the call's tagline.
   */
  method CallReachesPlayer(call: Call) returns (tagline: Option<string>, historyLength: nat)
    ensures tagline == call.tagline
    ensures historyLength == 1
  {
    var host := new Host();
    var hostSide := new Connection("player-1", "Asha");
    hostSide.open := true;
    host.OnOpen(hostSide);
    host.StartGame();
    var before := |host.sent|;
    host.CallNextTagline(call);
    assert host.connections == [hostSide];
    assert host.sent[before..] == [Envelope(hostSide, StateUpdate(host.state))];
    var update := host.sent[|host.sent| - 1].msg;

    var client := new Client();
    var playerSide := new Connection("host", "Asha");
    client.OnData(playerSide, update);
    tagline := client.gameState.value.currentTagline;
    historyLength := |client.gameState.value.history|;
  }

  /** A Jackpot claim from "Asha" heads the claim list of the host's next broadcast. */
  method ClaimHeadsNextBroadcast(now: int) returns (head: Claim)
    ensures head.claimType == "Jackpot" && head.player == "Asha" && head.status == Pending
    ensures head.playerId == "player-1" && head.id == now
  {
    var host := new Host();
    var hostSide := new Connection("player-1", "Asha");
    hostSide.open := true;
    host.OnOpen(hostSide);
    var before := |host.sent|;
    host.OnData(hostSide, ClaimMsg(ClaimData("Jackpot", "Asha")), now);
    assert host.connections == [hostSide];
    assert host.sent[before..] == [Envelope(hostSide, StateUpdate(host.state))];
    var claims := host.sent[|host.sent| - 1].msg.state.claims;
    head := claims.value[0];
  }

  /** Two JOINs from the same connection leave exactly one player. */
  method JoinTwice(name: string, name': string) returns (players: seq<Player>)
    ensures players == [Player("player-1", OrDefault(name, "Anonymous"), 0)]
  {
    var host := new Host();
    var hostSide := new Connection("player-1", name);
    hostSide.open := true;
    host.OnOpen(hostSide);
    host.OnData(hostSide, Join(name), 0);
    assert host.state.players == [Player("player-1", OrDefault(name, "Anonymous"), 0)];
    assert HasPlayer(host.state.players, hostSide.peer) by {
      assert host.state.players[0].id == hostSide.peer;
    }
    host.OnData(hostSide, Join(name'), 1);
    players := host.state.players;
  }

  /** Two open player connections, of which only the first has joined. */
  method TwoConnectedOneJoined(name: string) returns (host: Host, leaving: Connection, staying: Connection)
    ensures fresh(host) && fresh(leaving) && fresh(staying) && host.Valid()
    ensures leaving.open && staying.open && leaving.peer == "player-1" && staying.peer == "player-2"
    ensures host.connections == [leaving, staying]
    ensures host.state.players == [Player("player-1", OrDefault(name, "Anonymous"), 0)]
  {
    host := new Host();
    leaving := new Connection("player-1", name);
    staying := new Connection("player-2", "Ravi");
    leaving.open := true;
    staying.open := true;
    host.OnOpen(leaving);
    host.OnOpen(staying);
    host.OnData(leaving, Join(name), 0);
  }

  /** Once a joined player's connection closes, the roster broadcast to the others no longer lists it. */
  method LeaveDropsPlayer(name: string) returns (broadcastPlayers: seq<Player>, recipient: Connection)
    ensures broadcastPlayers == []
    ensures recipient.peer == "player-2"
  {
    var host, leaving, staying := TwoConnectedOneJoined(name);
    UnregisterFirstOfTwo(leaving, staying);
    WithoutOnlyPlayer(host.state.players[0]);
    ghost var before := host.sent;
    host.OnClose(leaving);
    var update := StateUpdate(host.state);
    FanoutToOne(staying, update);
    assert host.sent == before + [Envelope(staying, update)];
    var last := host.sent[|host.sent| - 1];
    broadcastPlayers := last.msg.state.players;
    recipient := last.to;
  }

  lemma UnregisterFirstOfTwo(a: Connection, b: Connection)
    requires a != b
    ensures Unregister([a, b], a) == [b]
  {
    assert [a, b][1..] == [b];
    assert [b][1..] == [];
    assert Unregister([b], a) == [b] + Unregister([], a);
    assert Unregister([a, b], a) == [] + Unregister([b], a);
  }

  lemma WithoutOnlyPlayer(p: Player)
    ensures WithoutPlayer([p], p.id) == []
  {
    assert [p][1..] == [];
  }

  lemma FanoutToOne(c: Connection, m: Message)
    requires c.open
    ensures Fanout([c], m) == [Envelope(c, m)]
  {
    assert [c][..0] == [];
  }
}
