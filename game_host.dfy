/**
 * The host's authoritative game session. Each handler (a connection
 * opening, a message arriving, a connection closing, the host starting the
 * game or making a call) runs to completion against one session record;
 * every change goes through a shallow merge that sends the complete new
 * session to every registered open connection.
 */
module GameHost {
  import opened Wrappers
  import opened Protocol

  /** The session a host starts with; it has no `claims` field yet. */
  const INITIAL_STATE: Session := Session(Lobby, None, [], [], None, None)

  // ---------------------------------------------------------------------
  // Shallow merge (`{ ...prev, ...updates }`)
  // ---------------------------------------------------------------------

  /** The fields an update names; an absent field is left as it was. */
  datatype Patch = Patch(
    status: Option<Status>,
    currentTagline: Option<Option<string>>,
    history: Option<seq<Call>>,
    players: Option<seq<Player>>,
    claims: Option<seq<Claim>>)

  const NO_FIELDS: Patch := Patch(None, None, None, None, None)

  /** The merged session: exactly the fields the patch names take its values. */
  function Merge(prev: Session, p: Patch): (next: Session)
    ensures next.status == (if p.status.Some? then p.status.value else prev.status)
    ensures next.currentTagline == (if p.currentTagline.Some? then p.currentTagline.value else prev.currentTagline)
    ensures next.history == (if p.history.Some? then p.history.value else prev.history)
    ensures next.players == (if p.players.Some? then p.players.value else prev.players)
    ensures next.claims == (if p.claims.Some? then Some(p.claims.value) else prev.claims)
    ensures next.winner == prev.winner
  {
    Session(
      p.status.GetOr(prev.status),
      p.currentTagline.GetOr(prev.currentTagline),
      p.history.GetOr(prev.history),
      p.players.GetOr(prev.players),
      if p.claims.Some? then p.claims else prev.claims,
      prev.winner)
  }

  // ---------------------------------------------------------------------
  // Broadcast fan-out
  // ---------------------------------------------------------------------

  /** The sends of one broadcast of `m`: one per registered connection that is open, in order. */
  function Fanout(cs: seq<Connection>, m: Message): (out: seq<Envelope>)
    reads cs
    ensures |out| <= |cs|
    ensures forall e :: e in out ==> e.msg == m && e.to in cs && e.to.open
  {
    if cs == [] then []
    else
      var last := cs[|cs| - 1];
      Fanout(cs[..|cs| - 1], m) + (if last.open then [Envelope(last, m)] else [])
  }

  /** One more registry entry adds one send exactly when that connection is open. */
  lemma FanoutStep(cs: seq<Connection>, i: nat, m: Message)
    requires i < |cs|
    ensures Fanout(cs[..i + 1], m) == Fanout(cs[..i], m) + (if cs[i].open then [Envelope(cs[i], m)] else [])
  {
    assert cs[..i + 1][..i] == cs[..i];
  }

  /** The connections a run of sends went to, in order. */
  function Recipients(out: seq<Envelope>): (r: seq<Connection>)
    ensures |r| == |out|
    ensures forall i :: 0 <= i < |out| ==> r[i] == out[i].to
  {
    seq(|out|, i requires 0 <= i < |out| => out[i].to)
  }

  /**
   * A broadcast sends each open connection one copy per registry entry and
   * a closed connection none.
   */
  lemma {:induction false} FanoutReachesEachOpenConnection(cs: seq<Connection>, m: Message, c: Connection)
    ensures multiset(Recipients(Fanout(cs, m)))[c] == (if c.open then multiset(cs)[c] else 0)
  {
    if cs != [] {
      var n := |cs| - 1;
      var last := cs[n];
      var init := cs[..n];
      FanoutReachesEachOpenConnection(init, m, c);
      assert cs == init + [last];
      assert multiset(cs) == multiset(init) + multiset{last};
      if last.open {
        assert Recipients(Fanout(cs, m)) == Recipients(Fanout(init, m)) + [last];
      } else {
        assert Recipients(Fanout(cs, m)) == Recipients(Fanout(init, m));
      }
    }
  }

  // ---------------------------------------------------------------------
  // The roster and the claim list
  // ---------------------------------------------------------------------

  /** Some player has identity `id` (`players.find(p => p.id === id)`). */
  predicate HasPlayer(ps: seq<Player>, id: string) {
    exists i :: 0 <= i < |ps| && ps[i].id == id
  }

  predicate DistinctPlayerIds(ps: seq<Player>) {
    forall i, j :: 0 <= i < j < |ps| ==> ps[i].id != ps[j].id
  }

  /** The roster after a JOIN from `id` carrying display name `name`. */
  function Joined(ps: seq<Player>, id: string, name: string): (r: seq<Player>)
    ensures HasPlayer(r, id)
    ensures |r| == |ps| + (if HasPlayer(ps, id) then 0 else 1)
    ensures r[..|ps|] == ps
    ensures !HasPlayer(ps, id) ==> r[|ps|] == Player(id, OrDefault(name, "Anonymous"), 0)
  {
    if HasPlayer(ps, id) then ps
    else
      var r := ps + [Player(id, OrDefault(name, "Anonymous"), 0)];
      assert r[|ps|].id == id;
      r
  }

  /** A second JOIN from the same identity changes nothing, whatever name it carries. */
  lemma JoinIdempotent(ps: seq<Player>, id: string, name: string, name': string)
    ensures Joined(Joined(ps, id, name), id, name') == Joined(ps, id, name)
  {
  }

  /** JOIN keeps player ids pairwise distinct. */
  lemma JoinKeepsDistinct(ps: seq<Player>, id: string, name: string)
    requires DistinctPlayerIds(ps)
    ensures DistinctPlayerIds(Joined(ps, id, name))
  {
    var r := Joined(ps, id, name);
    if !HasPlayer(ps, id) {
      forall i, j | 0 <= i < j < |r| ensures r[i].id != r[j].id {
        if j == |ps| {
          assert r[i] == ps[i];
        } else {
          assert r[i] == ps[i] && r[j] == ps[j];
        }
      }
    }
  }

  /** The roster without the players whose identity is `id` (`players.filter(p => p.id !== id)`). */
  function WithoutPlayer(ps: seq<Player>, id: string): (r: seq<Player>)
    ensures |r| <= |ps|
    ensures forall p :: p in r <==> p in ps && p.id != id
  {
    if ps == [] then []
    else (if ps[0].id != id then [ps[0]] else []) + WithoutPlayer(ps[1..], id)
  }

  /** Removing a player keeps the others in their order: the removal distributes over concatenation. */
  lemma {:induction false} WithoutPlayerAppend(a: seq<Player>, b: seq<Player>, id: string)
    ensures WithoutPlayer(a + b, id) == WithoutPlayer(a, id) + WithoutPlayer(b, id)
  {
    if a == [] {
      assert a + b == b;
    } else {
      assert (a + b)[1..] == a[1..] + b;
      WithoutPlayerAppend(a[1..], b, id);
    }
  }

  /** Removing an identity that is not on the roster changes nothing. */
  lemma {:induction false} WithoutAbsentPlayer(ps: seq<Player>, id: string)
    requires !HasPlayer(ps, id)
    ensures WithoutPlayer(ps, id) == ps
  {
    if ps != [] {
      assert ps[0].id != id;
      assert !HasPlayer(ps[1..], id) by {
        forall i | 0 <= i < |ps[1..]| ensures ps[1..][i].id != id { assert ps[1..][i] == ps[i + 1]; }
      }
      WithoutAbsentPlayer(ps[1..], id);
      assert ps == [ps[0]] + ps[1..];
    }
  }

  /** Removing players keeps the remaining ids pairwise distinct. */
  lemma {:induction false} WithoutPlayerKeepsDistinct(ps: seq<Player>, id: string)
    requires DistinctPlayerIds(ps)
    ensures DistinctPlayerIds(WithoutPlayer(ps, id))
  {
    if ps != [] {
      var rest := ps[1..];
      assert DistinctPlayerIds(rest) by {
        forall i, j | 0 <= i < j < |rest| ensures rest[i].id != rest[j].id { assert rest[i] == ps[i + 1] && rest[j] == ps[j + 1]; }
      }
      WithoutPlayerKeepsDistinct(rest, id);
      var r' := WithoutPlayer(rest, id);
      if ps[0].id != id {
        var r := [ps[0]] + r';
        assert forall q :: q in rest ==> q.id != ps[0].id by {
          forall k | 0 <= k < |rest| ensures rest[k].id != ps[0].id { assert rest[k] == ps[k + 1]; }
        }
        forall i, j | 0 <= i < j < |r| ensures r[i].id != r[j].id {
          if i == 0 {
            assert r[j] in r';
          } else {
            assert r[i] == r'[i - 1] && r[j] == r'[j - 1];
          }
        }
      } else {
        assert WithoutPlayer(ps, id) == [] + r';
      }
    }
  }

  /** `[newClaim, ...(claims || [])]`: the new claim first, the earlier ones after it in order. */
  function WithClaim(claims: Option<seq<Claim>>, c: Claim): (r: seq<Claim>)
    ensures |r| >= 1 && r[0] == c
    ensures r[1..] == (if claims.Some? then claims.value else [])
  {
    [c] + claims.GetOr([])
  }

  /** What stays true of every session the host ever holds. */
  ghost predicate SessionInvariant(s: Session) {
    && DistinctPlayerIds(s.players)
    && (forall i :: 0 <= i < |s.players| ==> s.players[i].score == 0 && s.players[i].name != "")
    && s.winner == None
  }

  lemma InitialStateInvariant()
    ensures SessionInvariant(INITIAL_STATE)
  {
  }

  // ---------------------------------------------------------------------
  // The host
  // ---------------------------------------------------------------------

  class Host {
    /** The authoritative session. */
    var state: Session
    /** Connections registered on `open`, in the order they opened. */
    var connections: seq<Connection>
    /** Every `conn.send` the host has made, in order. */
    var sent: seq<Envelope>

    ghost predicate Valid()
      reads this
    {
      SessionInvariant(state)
    }

    constructor ()
      ensures Valid()
      ensures state == INITIAL_STATE && connections == [] && sent == []
    {
      state := INITIAL_STATE;
      connections := [];
      sent := [];
    }

    /** `broadcast(state)`: one STATE_UPDATE to each open registered connection. */
    method Broadcast(s: Session)
      modifies this`sent
      ensures sent == old(sent) + Fanout(connections, StateUpdate(s))
    {
      var cs := connections;
      var m := StateUpdate(s);
      var out := [];
      var i := 0;
      while i < |cs|
        invariant 0 <= i <= |cs|
        invariant out == Fanout(cs[..i], m)
        invariant sent == old(sent)
      {
        FanoutStep(cs, i, m);
        if cs[i].open {
          out := out + [Envelope(cs[i], m)];
        }
        i := i + 1;
      }
      assert cs[..i] == cs;
      sent := sent + out;
    }

    /** `updateGameState(updates)`: merge, then broadcast the merged session. */
    method UpdateGameState(p: Patch)
      modifies this`state, this`sent
      ensures state == Merge(old(state), p)
      ensures sent == old(sent) + Fanout(connections, StateUpdate(state))
    {
      state := Merge(state, p);
      Broadcast(state);
    }

    /** A player connection opened: register it and send it, and only it, the current session. */
    method OnOpen(conn: Connection)
      modifies this`connections, this`sent
      ensures connections == old(connections) + [conn]
      ensures sent == old(sent) + [Envelope(conn, StateUpdate(state))]
    {
      connections := connections + [conn];
      sent := sent + [Envelope(conn, StateUpdate(state))];
    }

    /**
     * `handlePlayerMessage(conn, data)`. JOIN from a new identity appends a
     * player and broadcasts; JOIN from a known identity does nothing. CLAIM
     * prepends a PENDING claim stamped `now` and broadcasts. Any other
     * message leaves the session and the outbox alone.
     */
    method OnData(conn: Connection, msg: Message, now: int)
      requires Valid()
      modifies this`state, this`sent
      ensures Valid()
      ensures msg.Join? && HasPlayer(old(state).players, conn.peer) ==>
        state == old(state) && sent == old(sent)
      ensures msg.Join? && !HasPlayer(old(state).players, conn.peer) ==>
        && state == old(state).(players := old(state).players + [Player(conn.peer, OrDefault(msg.name, "Anonymous"), 0)])
        && sent == old(sent) + Fanout(connections, StateUpdate(state))
      ensures msg.ClaimMsg? ==>
        && state == old(state).(claims := Some(
             [Claim(now, conn.peer, OrDefault(msg.payload.playerName, "Unknown"), msg.payload.claimType, Pending)]
             + old(state).claims.GetOr([])))
        && sent == old(sent) + Fanout(connections, StateUpdate(state))
      ensures (msg.StateUpdate? || msg.Other?) ==> state == old(state) && sent == old(sent)
    {
      match msg
      case Join(name) =>
        if !HasPlayer(state.players, conn.peer) {
          var players := Joined(state.players, conn.peer, name);
          JoinKeepsDistinct(state.players, conn.peer, name);
          UpdateGameState(NO_FIELDS.(players := Some(players)));
        }
      case ClaimMsg(data) =>
        var claim := Claim(now, conn.peer, OrDefault(data.playerName, "Unknown"), data.claimType, Pending);
        UpdateGameState(NO_FIELDS.(claims := Some(WithClaim(state.claims, claim))));
      case StateUpdate(_) =>
      case Other(_) =>
    }

    /**
     * A player connection closed: unregister it, drop every player with its
     * identity, and broadcast the result to the connections still registered.
     */
    method OnClose(conn: Connection)
      requires Valid()
      modifies this`connections, this`state, this`sent
      ensures Valid()
      ensures connections == Unregister(old(connections), conn)
      ensures conn !in connections
      ensures state == old(state).(players := WithoutPlayer(old(state).players, conn.peer))
      ensures !HasPlayer(state.players, conn.peer)
      ensures sent == old(sent) + Fanout(connections, StateUpdate(state))
      ensures forall e :: e in sent[|old(sent)|..] ==> e.to != conn
    {
      connections := Unregister(connections, conn);
      var players := WithoutPlayer(state.players, conn.peer);
      WithoutPlayerKeepsDistinct(state.players, conn.peer);
      UpdateGameState(NO_FIELDS.(players := Some(players)));
      assert sent[|old(sent)|..] == Fanout(connections, StateUpdate(state));
    }

    /** `startGame()`: PLAYING, an empty history and no tagline; players and claims untouched. */
    method StartGame()
      requires Valid()
      modifies this`state, this`sent
      ensures Valid()
      ensures state == old(state).(status := Playing, history := [], currentTagline := None)
      ensures sent == old(sent) + Fanout(connections, StateUpdate(state))
    {
      UpdateGameState(NO_FIELDS.(status := Some(Playing), history := Some([]), currentTagline := Some(None)));
    }

    /** `callNextTagline(call)`: append the call to the history and show its tagline. */
    method CallNextTagline(call: Call)
      requires Valid()
      modifies this`state, this`sent
      ensures Valid()
      ensures state == old(state).(currentTagline := call.tagline, history := old(state).history + [call])
      ensures sent == old(sent) + Fanout(connections, StateUpdate(state))
    {
      UpdateGameState(NO_FIELDS.(currentTagline := Some(call.tagline), history := Some(state.history + [call])));
    }
  }

  /** The registry without `c` (`connections.filter(x => x !== c)`). */
  function Unregister(cs: seq<Connection>, c: Connection): (r: seq<Connection>)
    ensures c !in r
    ensures forall d :: d in r ==> d in cs && d != c
    ensures forall d :: d in cs && d != c ==> multiset(r)[d] == multiset(cs)[d]
  {
    if cs == [] then []
    else
      assert cs == [cs[0]] + cs[1..];
      (if cs[0] != c then [cs[0]] else []) + Unregister(cs[1..], c)
  }
}
