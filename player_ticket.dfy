/**
 * The two pieces of player-side game logic that sit in the ticket screen:
 * toggling a mark on a ticket cell, and the local check that lets a claim
 * go to the host only when the ticket actually wins it.
 */
module PlayerTicket {
  import opened Wrappers
  import opened Protocol
  import opened GameUtils

  /** Tapping a cell: its id leaves the marked set if present, and joins it otherwise. */
  function ToggleMark(marked: set<string>, id: string): (r: set<string>)
    ensures id in r <==> id !in marked
    ensures r - {id} == marked - {id}
  {
    if id in marked then marked - {id} else marked + {id}
  }

  /** Tapping the same cell twice restores the marks. */
  lemma ToggleTwice(marked: set<string>, id: string)
    ensures ToggleMark(ToggleMark(marked, id), id) == marked
  {
  }

  /**
   * The claim button: the claim `{claimType, playerName}` is handed to
   * `sendClaim` exactly when the ticket wins `claimType`; otherwise the
   * player is only told it is not valid yet.
   */
  function ClaimGate(ticket: Option<Ticket>, marked: set<string>, claimType: string, playerName: string): (r: Option<ClaimData>)
    requires ticket.Some? ==> RowsPresent(ticket.value, claimType)
    ensures r.Some? <==> ValidateClaim(ticket, Some(marked), claimType)
    ensures r.Some? ==> r.value == ClaimData(claimType, playerName)
    ensures ticket.None? ==> r.None?
  {
    if ValidateClaim(ticket, Some(marked), claimType) then Some(ClaimData(claimType, playerName)) else None
  }
}
