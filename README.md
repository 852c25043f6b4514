# Bolhousie game core in Dafny

Bolhousie is a browser game in the style of housie (bingo), played over
peer-to-peer data connections. Advertising catalog items take the place of
numbers. A host runs the authoritative session. The host's caller hands out
one catalog item at a time and broadcasts one of its taglines. Each player
holds a 3 x 5 ticket of catalog items. Players mark cells and send claims:
Teaser (any five marked), Prime Time, Intermission and Late Night (the
top, middle and bottom row fully marked), and Jackpot (all fifteen marked).

This project models the game's core and proves properties about it:

- `game_utils.dfy` (module `GameUtils`): the game constants, the
  Fisher–Yates shuffle, ticket generation and claim validation.
- `game_host.dfy` (module `GameHost`): the host's session manager, as a
  class `Host`. It holds the session record, the registry of player
  connections and an outbox of every send. Every state change goes through
  a shallow merge followed by a broadcast.
- `caller.dfy` (module `Caller`): the caller, as a class `Caller`. It
  builds the call pool once on mount: items not yet called, the ones with
  an audio cue first, each group shuffled. It then deals calls from the
  front of the pool.
- `game_player.dfy` (module `GamePlayer`): the player's connection state
  machine, as a class `Client`. It covers connect, the attempt latch, the
  10-second timeout, open/data/close/error events and sending a claim.
- `player_ticket.dfy` (module `PlayerTicket`): the two pieces of
  ticket-screen logic that feed the core. Tapping a cell toggles its mark.
  A claim leaves the player only when `validateClaim` accepts it.
- `protocol.dfy`, `brands.dfy` and `wrappers.dfy`: the shared records (the
  session, players, calls, claims, messages, the connection handle), the
  catalog item with a filter over it, and `Option`.
- `scenarios.dfy` (module `Scenarios`): short runs that put the host,
  caller and client together.

Randomness becomes parameters. A shuffle takes `pick`, the sequence of
`Math.floor(Math.random() * (i + 1))` values, with `pick[i] <= i`. A call
takes the tagline index. A claim takes the clock reading. Whether an item
has an audio cue is a predicate `hasAudio` standing for the HEAD probes.
Sends are recorded in outboxes (`Host.sent`, `Client.sent`) rather than
delivered. Transport events (`open`, `data`, `close`, `error`, the timer
firing) are methods the environment calls.

Where the code's own comments promise more than it does, the model
follows the code:

- `startGame` is commented `// Reset pool` (`hooks/useGameHost.js:104`),
  but the pool it resets is a host-side one that nothing reads. The
  caller's pool is built once on mount and never refilled.
- The host records every claim as PENDING and never validates one.
- The status is commented `// LOBBY, PLAYING, ENDED`
  (`hooks/useGameHost.js:7`), and the session has a `winner` field. The
  code never sets ENDED or a winner, and never changes a score.

## Model

| member | source | states |
|---|---|---|
| GameUtils.Shuffle | utils/gameUtils.js:19-26 | returns exactly the countdown Fisher–Yates result `Shuffled(input, pick)` for the given random choices, and a permutation of the input; every swap index `j` with `0 <= j <= i` is in bounds of the array |
| GameUtils.ShuffledIsPermutation | utils/gameUtils.js:19-26 | the shuffle's result is a permutation (same multiset) of its input, whatever the random choices |
| GameUtils.ShuffledKeepsDistinct | utils/gameUtils.js:19-26 | shuffling items with pairwise distinct ids keeps them pairwise distinct |
| GameUtils.Slice | utils/gameUtils.js:33-38 | JavaScript `slice`: within bounds it is exactly the sub-sequence `lo..hi`; an end past the length is clamped, giving `s[lo..]`; a start at or past the length, or past the end, gives the empty sequence; never longer than its input |
| GameUtils.GenerateTicket | utils/gameUtils.js:31-41 | exactly 3 rows, row `i` being items `5i..5i+5` of the first 15 of the shuffled catalog; with at least 15 items, 3 rows of 5 whose flattening is the shuffled prefix; every cell is a catalog item; distinct catalog ids give a ticket with distinct ids |
| GameUtils.LayoutFlattens | utils/gameUtils.js:35-39 | cutting 15 items into three rows of five and flattening gives back the 15 items |
| GameUtils.FlatMembership | utils/gameUtils.js:53 | an item is in `ticket.flat()` exactly when it is in some row |
| GameUtils.MarkedCount | utils/gameUtils.js:54 | the marked-cell count never exceeds the number of cells |
| GameUtils.MarkedCountIsPositions | utils/gameUtils.js:54 | the count equals the number of cell positions whose id is marked |
| GameUtils.MarkedCountFull | utils/gameUtils.js:54 | the count equals the number of cells exactly when every cell is marked |
| GameUtils.MarkedCountIgnoresOthers | utils/gameUtils.js:54 | marks on ids outside the cells do not change the count |
| GameUtils.MarkedCountOfDistinct | utils/gameUtils.js:54 | on cells with distinct ids, the count is the number of marked ids the cells carry |
| GameUtils.LineRow | utils/gameUtils.js:61-71 | only the three line claims name a row (never Teaser, Jackpot or an unknown type), and that row is one of the ticket's three |
| GameUtils.LineClaimsByName | utils/gameUtils.js:61-71 | Prime Time is valid exactly when row 0 is fully marked, Intermission row 1, Late Night row 2 |
| GameUtils.ValidateClaim | utils/gameUtils.js:50-80 | false without a ticket or a marked set, and false for a claim type that is not one of the five |
| GameUtils.TeaserIff | utils/gameUtils.js:56-59 | Teaser is valid exactly when at least five cells are marked |
| GameUtils.LineClaimIff | utils/gameUtils.js:61-71 | a line claim is valid exactly when every cell of its row is marked |
| GameUtils.JackpotIff | utils/gameUtils.js:73-75 | on a full 3 x 5 ticket, Jackpot is valid exactly when every one of the 15 cells is marked |
| GameUtils.JackpotWinsEverything | utils/gameUtils.js:54-75 | on a full ticket, a valid Jackpot makes every other claim type valid too |
| GameUtils.OffTicketMarksIgnored | utils/gameUtils.js:53-75 | marks on ids that are not on the ticket never change any claim's validity |
| GameUtils.DistinctTicketCounts | utils/gameUtils.js:53-75 | on a ticket with distinct ids, Teaser needs five marked ticket ids and Jackpot needs all fifteen |
| Brands.Select | components/Caller.js:19 | the filter keeps exactly the items whose id passes (or fails) the test, and is no longer than its input |
| Brands.SelectPartitions | components/Caller.js:41-42 | the items with and without audio together form a permutation of the available items |
| Protocol.OrDefault | hooks/useGameHost.js:50 | a non-empty string is kept and the empty string is replaced by the fallback (`s \|\| fallback`), so the result is never empty when the fallback is not |
| Protocol.Connection.Close | hooks/useGamePlayer.js:48 | after `close()` the connection is closed and not open |
| GameHost.InitialStateInvariant | hooks/useGameHost.js:6-12 | the initial session (LOBBY, no tagline, empty history and roster, no winner) satisfies the session invariant: distinct player ids, every score 0, every display name non-empty, no winner |
| GameHost.Merge | hooks/useGameHost.js:37-39 | the shallow merge: the fields the update names take its values, every other field keeps the previous value, and the winner never changes |
| GameHost.Fanout | hooks/useGameHost.js:27-34 | a broadcast carries the same STATE_UPDATE on every send, only to registered connections that are open, and makes at most one send per registry entry |
| GameHost.FanoutReachesEachOpenConnection | hooks/useGameHost.js:29-33 | each open connection receives one copy per registry entry and a closed connection none |
| GameHost.Host.constructor | hooks/useGameHost.js:16-18 | the host starts with the initial session, no connections and nothing sent |
| GameHost.Host.Broadcast | hooks/useGameHost.js:27-34 | the outbox grows by exactly the fan-out of the session to the registry, in registry order |
| GameHost.Host.UpdateGameState | hooks/useGameHost.js:37-43 | the new session is the merge of the old one with the update, and exactly that merged session is broadcast |
| GameHost.Joined | hooks/useGameHost.js:49-55 | after a JOIN the identity is on the roster; a new identity is appended as a player with score 0 and name `name \|\| "Anonymous"`; a known one leaves the roster as it was |
| GameHost.JoinIdempotent | hooks/useGameHost.js:51-54 | a second JOIN from the same identity changes nothing, whatever name it carries |
| GameHost.JoinKeepsDistinct | hooks/useGameHost.js:49-55 | player ids stay pairwise distinct across a JOIN |
| GameHost.WithClaim | hooks/useGameHost.js:65 | the new claim comes first, followed by the earlier claims in order, or by none when there was no claim list |
| GameHost.Host.OnData | hooks/useGameHost.js:45-71 | JOIN from a known identity changes nothing and sends nothing; JOIN from a new one appends the player and broadcasts; CLAIM prepends a PENDING claim (clock id, sender identity, `playerName \|\| "Unknown"`, claim type) and broadcasts; any other message changes nothing and sends nothing; the session invariant is kept, so a JOIN with an empty name still gives a named player |
| GameHost.Host.OnOpen | hooks/useGameHost.js:79-84 | the connection is appended to the registry and only it is sent the current session |
| GameHost.Unregister | hooks/useGameHost.js:92 | the connection leaves the registry and every other entry keeps its multiplicity |
| GameHost.WithoutPlayer | hooks/useGameHost.js:96 | the roster keeps exactly the players whose id differs from the leaving identity |
| GameHost.WithoutPlayerAppend | hooks/useGameHost.js:96 | removal distributes over concatenation, so the remaining players keep their order |
| GameHost.WithoutAbsentPlayer | hooks/useGameHost.js:96 | removing an identity that is not on the roster leaves the roster unchanged |
| GameHost.WithoutPlayerKeepsDistinct | hooks/useGameHost.js:96 | player ids stay pairwise distinct after a removal |
| GameHost.Host.OnClose | hooks/useGameHost.js:90-98 | the connection is unregistered, no player with its identity remains, the rest of the session is unchanged, the result is broadcast to the remaining registry, and the closed connection receives none of those sends |
| GameHost.Host.StartGame | hooks/useGameHost.js:103-106 | status PLAYING, empty history and no tagline; players, claims and winner untouched; the new session is broadcast |
| GameHost.Host.CallNextTagline | hooks/useGameHost.js:108-116 | the call is appended to the history and its tagline becomes the current one; the rest unchanged; broadcast |
| Caller.Available | components/Caller.js:18-19 | exactly the catalog items whose id is not in the history |
| Caller.AudioGroup | components/Caller.js:41-42 | exactly the available items with (or without) an audio cue |
| Caller.InitialPoolIsPermutation | components/Caller.js:18-57 | the pool is a permutation of the catalog items not yet called, so none is already in the history |
| Caller.InitialPoolAudioFirst | components/Caller.js:41-57 | every item with an audio cue comes before every item without one |
| Caller.InitialPoolDistinct | components/Caller.js:18-57 | with distinct catalog ids, the pool holds no id twice |
| Caller.Caller.constructor | components/Caller.js:6-13 | mount: no current item, not revealed, an empty pool that is not ready |
| Caller.Caller.ShuffleArray | components/Caller.js:45-52 | the in-component shuffle is the same Fisher–Yates shuffle: the same result and a permutation of its input |
| Caller.Caller.InitializePool | components/Caller.js:17-61 | the pool becomes the audio-first shuffled pool and is ready; the audio ids are recorded; nothing has been dealt |
| Caller.TaglineAt | components/Caller.js:125 | the tagline at an in-range index, and none at an out-of-range one (an item without taglines) |
| Caller.Caller.CallNext | components/Caller.js:113-129 | with an empty or unready pool, nothing changes and no call is made; otherwise the head of the pool is removed, shown unrevealed and called with a tagline it owns; the pool never grows and dealt items plus the pool always make up the pool built on mount |
| Caller.DealtAreDistinct | components/Caller.js:117-118 | with distinct ids, no item is called twice, and no dealt item remains in the pool |
| Caller.Caller.Reveal | components/Caller.js:160 | the current item's name is revealed |
| Caller.Caller.ButtonLabel | components/Caller.js:169-170 | "Loading..." until ready, "Show Over" once the pool is empty, otherwise "Next Ad >>" |
| Caller.ShowOverOnceAllDealt | components/Caller.js:169-170 | once the pool is ready, the button reads "Show Over" and calling is disabled exactly when every item of the pool built on mount has been called |
| GamePlayer.Client.constructor | hooks/useGamePlayer.js:6-13 | no session, no connection, not connected, no error, not connecting, latch clear |
| GamePlayer.Client.Loading | hooks/useGamePlayer.js:16 | loading exactly while the peer is loading or an attempt is pending |
| GamePlayer.Client.ConnectToHost | hooks/useGamePlayer.js:18-50 | without a peer, or with the latch set, or when connected, nothing changes; otherwise the latch is set, connecting is on, the error cleared, exactly one connect carrying the player name is issued and its timeout armed |
| GamePlayer.Client.OnTimeout | hooks/useGamePlayer.js:42-50 | once its timer is armed and not cleared: if the connection is not open, the timeout error is set, the attempt ends and the connection is closed; if it opened, nothing changes |
| GamePlayer.Client.OnOpen | hooks/useGamePlayer.js:52-61 | the timer is cleared, the player is connected with the connection stored, connecting is off, and exactly one JOIN carrying the player name is sent |
| GamePlayer.Client.OnData | hooks/useGamePlayer.js:63-68 | a STATE_UPDATE replaces the game state wholesale; any other message leaves it alone |
| GamePlayer.Client.OnClose | hooks/useGamePlayer.js:70-78 | the timer is cleared; disconnected, no connection stored, latch cleared, and the disconnect error set |
| GamePlayer.Client.OnError | hooks/useGamePlayer.js:80-86 | the timer is cleared; the error is the error's message or "Connection failed" when it is empty; the attempt ends; the connected flag and stored connection are untouched |
| GamePlayer.Client.SendClaim | hooks/useGamePlayer.js:89-95 | exactly one CLAIM with the given data is sent on the stored connection when it is open, and nothing otherwise |
| GamePlayer.PeerReady | hooks/useGamePlayer.js:100 | ready exactly when the peer has finished loading and its status is "connected" |
| GamePlayer.LoadingOnceReady | hooks/useGamePlayer.js:16-100 | once the peer is ready, loading shows exactly while a connection attempt is pending, and never for a connected player |
| PlayerTicket.ToggleMark | components/PlayerGame.js:250-255 | the tapped id flips membership and every other id keeps it |
| PlayerTicket.ToggleTwice | components/PlayerGame.js:250-255 | tapping the same cell twice restores the marks |
| PlayerTicket.ClaimGate | components/ClaimPanel.js:6-13 | a claim `{claimType, playerName}` leaves the player exactly when `validateClaim` accepts it, and never without a ticket |
| Scenarios.ConnectTwiceWhilePending | hooks/useGamePlayer.js:26-36 | two connect requests while the first is pending issue exactly one connect |
| Scenarios.CallReachesPlayer | hooks/useGameHost.js:103-116 | after starting and one call, the snapshot a connected player receives has a one-entry history and the call's tagline |
| Scenarios.ClaimHeadsNextBroadcast | hooks/useGameHost.js:57-65 | a claim heads the claim list of the next broadcast, as PENDING with the sender's identity and the clock id |
| Scenarios.JoinTwice | hooks/useGameHost.js:49-55 | two JOINs on one connection leave exactly one player, named from the first JOIN |
| Scenarios.TwoConnectedOneJoined | hooks/useGameHost.js:45-84 | two player connections open and are registered in order, and a JOIN on the first puts exactly that player on the roster |
| Scenarios.LeaveDropsPlayer | hooks/useGameHost.js:90-98 | when a joined player's connection closes, the broadcast goes to the remaining connection and no longer lists that player |

## Left out

- The peer transport adapter (`hooks/usePeer.js`) and the signalling
  server (`peerserver/server.js`) are not modelled. The peer's presence,
  loading flag and status are parameters.
- The UI components (host and player screens, the ticket grid, the claims
  reference, pages, layout) are left out. From them, only the mark toggle
  (`components/PlayerGame.js:250-255`) and the claim gate
  (`components/ClaimPanel.js:6-13`) are modelled.
- The HEAD probes that decide which items have audio are an input
  predicate `hasAudio`. The asynchronous `Promise.all` is not modelled.
  Audio playback (`components/Caller.js:66-111`) is not modelled either.
- The caller's display tagline (`components/Caller.js:131`) is display
  logic and is not modelled.
- `Math.random` and `Date.now` are left out. They become parameters (the
  pick sequences, the tagline index, the clock reading).
- React scheduling is left out: batched updates, the ref synchronised by an
  effect, StrictMode double effects and stale closures. Each handler runs
  to completion on the latest session. The code's read of the session
  through a ref can lag behind a merge that has not yet re-rendered. Two
  messages handled within one render could then see the same roster. This
  is not modelled.
- Message delivery, ordering across connections and JSON serialisation
  are left out. A send is an entry in an outbox.
- The host-side `pool` (`hooks/useGameHost.js:24,104`) is left out. It is
  set on `startGame` but never read.
- GameHost.Host.OnData: a JOIN or CLAIM arriving without any payload
  object throws in the code. That is not modelled. Absent string fields
  are the empty string, which `||` replaces just as it replaces
  `undefined`.
- GameUtils.GenerateTicket: the shuffle input is an immutable sequence.
  The code's copy-before-shuffle, which keeps the catalog array untouched,
  holds trivially.
- GameUtils.ValidateClaim: it requires that the row a line claim reads
  exists. The code would throw on a ticket shorter than that row, and
  every ticket `generateTicket` produces has three rows.
- GameHost.Host.OnClose: a `close` event for a connection that never
  opened still drops its identity from the roster. This follows the code.
  The model does not restrict which connections may close.
