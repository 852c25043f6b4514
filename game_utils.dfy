/**
 * The ticket builder and the claim validator of the game: a Fisher-Yates
 * shuffle driven by an explicit sequence of random choices, the 3x5 ticket
 * laid out from the first fifteen shuffled catalog items, and the predicate
 * that decides whether a set of marked ids wins a given claim.
 */
module GameUtils {
  import opened Wrappers
  import opened Brands

  // ---------------------------------------------------------------------
  // Constants
  // ---------------------------------------------------------------------

  const TICKET_ROWS: nat := 3
  const TICKET_COLS: nat := 5
  const TICKET_SIZE: nat := TICKET_ROWS * TICKET_COLS

  /** The five claim kinds: early five, top line, middle line, bottom line, full house. */
  const TEASER: string := "Teaser"
  const PRIME_TIME: string := "Prime Time"
  const INTERMISSION: string := "Intermission"
  const LATE_NIGHT: string := "Late Night"
  const JACKPOT: string := "Jackpot"

  const CLAIMS: seq<string> := [TEASER, PRIME_TIME, INTERMISSION, LATE_NIGHT, JACKPOT]

  /** A ticket is a list of rows of catalog items; a generated one has 3 rows of 5. */
  type Ticket = seq<seq<Brand>>

  predicate IsFullShape(t: Ticket) {
    |t| == TICKET_ROWS && forall r :: 0 <= r < |t| ==> |t[r]| == TICKET_COLS
  }

  // ---------------------------------------------------------------------
  // Fisher-Yates shuffle
  // ---------------------------------------------------------------------

  /**
   * The random choices of one shuffle of `n` items: at step `i` the swap
   * partner `pick[i]` is `Math.floor(Math.random() * (i + 1))`, so it lies
   * in `[0, i]`.
   */
  predicate ValidPicks(pick: seq<nat>, n: nat) {
    |pick| == n && forall i :: 0 <= i < n ==> pick[i] <= i
  }

  /** `a` with the entries at `i` and `j` exchanged. */
  function Swap<T>(a: seq<T>, i: nat, j: nat): (r: seq<T>)
    requires i < |a| && j < |a|
    ensures |r| == |a|
  {
    a[i := a[j]][j := a[i]]
  }

  /** The remaining iterations of the countdown loop, from index `i` down to 1. */
  function ShuffleDown<T>(a: seq<T>, pick: seq<nat>, i: int): (r: seq<T>)
    requires i < |a| && ValidPicks(pick, |a|)
    ensures |r| == |a|
    decreases i
  {
    if i <= 0 then a else ShuffleDown(Swap(a, i, pick[i]), pick, i - 1)
  }

  /** The outcome of shuffling `s` with the choices `pick`. */
  function Shuffled<T>(s: seq<T>, pick: seq<nat>): (r: seq<T>)
    requires ValidPicks(pick, |s|)
    ensures |r| == |s|
  {
    ShuffleDown(s, pick, |s| - 1)
  }

  lemma SwapPermutes<T>(a: seq<T>, i: nat, j: nat)
    requires i < |a| && j < |a|
    ensures multiset(Swap(a, i, j)) == multiset(a)
  {
    var b := a[i := a[j]];
    assert multiset(b) == multiset(a) - multiset{a[i]} + multiset{a[j]};
    assert b[j] == (if i == j then a[j] else a[j]);
  }

  lemma {:induction false} ShuffleDownPermutes<T>(a: seq<T>, pick: seq<nat>, i: int)
    requires i < |a| && ValidPicks(pick, |a|)
    ensures |ShuffleDown(a, pick, i)| == |a|
    ensures multiset(ShuffleDown(a, pick, i)) == multiset(a)
    decreases i
  {
    if i > 0 {
      SwapPermutes(a, i, pick[i]);
      ShuffleDownPermutes(Swap(a, i, pick[i]), pick, i - 1);
    }
  }

  /** A shuffle returns a permutation of its input: same length, same multiset. */
  lemma ShuffledIsPermutation<T>(s: seq<T>, pick: seq<nat>)
    requires ValidPicks(pick, |s|)
    ensures |Shuffled(s, pick)| == |s|
    ensures multiset(Shuffled(s, pick)) == multiset(s)
  {
    ShuffleDownPermutes(s, pick, |s| - 1);
  }

  lemma SwapKeepsDistinct(a: seq<Brand>, i: nat, j: nat)
    requires i < |a| && j < |a| && DistinctIds(a)
    ensures DistinctIds(Swap(a, i, j))
  {
    var b := Swap(a, i, j);
    forall p, q | 0 <= p < q < |b| ensures b[p].id != b[q].id {
      var p' := if p == i then j else if p == j then i else p;
      var q' := if q == i then j else if q == j then i else q;
      assert b[p] == a[p'] && b[q] == a[q'] && p' != q';
    }
  }

  lemma {:induction false} ShuffleDownKeepsDistinct(a: seq<Brand>, pick: seq<nat>, i: int)
    requires i < |a| && ValidPicks(pick, |a|) && DistinctIds(a)
    ensures DistinctIds(ShuffleDown(a, pick, i))
    decreases i
  {
    if i > 0 {
      SwapKeepsDistinct(a, i, pick[i]);
      ShuffleDownKeepsDistinct(Swap(a, i, pick[i]), pick, i - 1);
    }
  }

  /** Shuffling a catalog whose ids are distinct keeps them distinct. */
  lemma ShuffledKeepsDistinct(s: seq<Brand>, pick: seq<nat>)
    requires ValidPicks(pick, |s|) && DistinctIds(s)
    ensures DistinctIds(Shuffled(s, pick))
  {
    ShuffleDownKeepsDistinct(s, pick, |s| - 1);
  }

  /**
   * `shuffle(array)`: copies the input and runs the countdown loop, swapping
   * each position `i > 0` with a chosen `j <= i`. The input is a value and
   * stays as it was; every array access of the loop is in bounds.
   */
  method Shuffle<T>(input: seq<T>, pick: seq<nat>) returns (r: seq<T>)
    requires ValidPicks(pick, |input|)
    ensures r == Shuffled(input, pick)
    ensures |r| == |input| && multiset(r) == multiset(input)
  {
    var arr := new T[|input|](k requires 0 <= k < |input| => input[k]);
    assert arr[..] == input;
    var i := arr.Length - 1;
    while i > 0
      invariant -1 <= i < arr.Length
      invariant ShuffleDown(arr[..], pick, i) == Shuffled(input, pick)
    {
      var j := pick[i];
      ghost var before := arr[..];
      arr[i], arr[j] := arr[j], arr[i];
      assert arr[..] == Swap(before, i, j);
      i := i - 1;
    }
    r := arr[..];
    ShuffledIsPermutation(input, pick);
  }

  // ---------------------------------------------------------------------
  // Ticket generation
  // ---------------------------------------------------------------------

  /** JavaScript's `s.slice(lo, hi)`: both ends are clamped to the length. */
  function Slice<T>(s: seq<T>, lo: nat, hi: nat): (r: seq<T>)
    ensures lo <= hi <= |s| ==> r == s[lo..hi]
    ensures lo <= |s| <= hi ==> r == s[lo..]
    ensures |s| <= lo || hi <= lo ==> r == []
    ensures |r| <= |s|
  {
    var l := if lo < |s| then lo else |s|;
    var h := if hi < |s| then hi else |s|;
    if l <= h then s[l..h] else []
  }

  /** The ticket's cells row by row (`ticket.flat()`). */
  function Flat(t: Ticket): seq<Brand> {
    if t == [] then [] else t[0] + Flat(t[1..])
  }

  lemma {:induction false} FlatMembership(t: Ticket, b: Brand)
    ensures b in Flat(t) <==> exists r :: 0 <= r < |t| && b in t[r]
  {
    if t != [] {
      FlatMembership(t[1..], b);
      if b in t[0] {
        assert 0 < |t| && b in t[0];
      }
      if exists r :: 1 <= r < |t| && b in t[r] {
        var r :| 1 <= r < |t| && b in t[r];
        assert b in t[1..][r - 1];
      }
      if b in Flat(t[1..]) {
        var r :| 0 <= r < |t[1..]| && b in t[1..][r];
        assert b in t[r + 1];
      }
    }
  }

  lemma FlatOfThreeRows(a: seq<Brand>, b: seq<Brand>, c: seq<Brand>)
    ensures Flat([a, b, c]) == a + b + c
  {
    assert [a, b, c][1..] == [b, c];
    assert [b, c][1..] == [c];
    assert [c][1..] == [];
    assert Flat([c]) == c + Flat([]) == c;
    assert Flat([b, c]) == b + Flat([c]);
  }

  lemma FlatOfFullShape(t: Ticket)
    requires IsFullShape(t)
    ensures |Flat(t)| == TICKET_SIZE
  {
    assert t == [t[0], t[1], t[2]];
    FlatOfThreeRows(t[0], t[1], t[2]);
  }

  /**
   * `generateTicket()`: the first `TICKET_SIZE` items of the shuffled
   * catalog, pushed into the ticket `TICKET_COLS` at a time. Row `i` is the
   * slice `[5i, 5i + 5)` of the selection. With at least fifteen catalog
   * items the ticket is a full 3x5 grid holding exactly those fifteen items;
   * its cells always come from the catalog, and they have distinct ids when
   * the catalog does.
   */
  method GenerateTicket(catalog: seq<Brand>, pick: seq<nat>) returns (ticket: Ticket)
    requires ValidPicks(pick, |catalog|)
    ensures |ticket| == TICKET_ROWS
    ensures forall i :: 0 <= i < TICKET_ROWS ==>
      ticket[i] == Slice(Slice(Shuffled(catalog, pick), 0, TICKET_SIZE), i * TICKET_COLS, (i + 1) * TICKET_COLS)
    ensures |catalog| >= TICKET_SIZE ==>
      IsFullShape(ticket) && Flat(ticket) == Shuffled(catalog, pick)[..TICKET_SIZE]
    ensures forall r, c :: 0 <= r < |ticket| && 0 <= c < |ticket[r]| ==> ticket[r][c] in catalog
    ensures DistinctIds(catalog) ==> DistinctIds(Flat(ticket))
  {
    var shuffled := Shuffle(catalog, pick);
    var selected := Slice(shuffled, 0, TICKET_SIZE);
    ticket := [];
    for i := 0 to TICKET_ROWS
      invariant |ticket| == i
      invariant forall k :: 0 <= k < i ==>
        ticket[k] == Slice(selected, k * TICKET_COLS, (k + 1) * TICKET_COLS)
    {
      ticket := ticket + [Slice(selected, i * TICKET_COLS, (i + 1) * TICKET_COLS)];
    }
    SelectionFacts(catalog, pick, shuffled, selected, ticket);
  }

  /** Laying a selection of at most fifteen items into rows loses and reorders nothing. */
  lemma LayoutFlattens(selected: seq<Brand>, ticket: Ticket)
    requires |selected| <= TICKET_SIZE
    requires |ticket| == TICKET_ROWS
    requires forall k :: 0 <= k < TICKET_ROWS ==>
      ticket[k] == Slice(selected, k * TICKET_COLS, (k + 1) * TICKET_COLS)
    ensures Flat(ticket) == selected
    ensures |selected| == TICKET_SIZE ==> IsFullShape(ticket)
  {
    var n := |selected|;
    var a := if n < 5 then n else 5;
    var b := if n < 10 then n else 10;
    assert ticket[0] == selected[..a];
    assert ticket[1] == selected[a..b];
    assert ticket[2] == selected[b..];
    assert ticket == [ticket[0], ticket[1], ticket[2]];
    FlatOfThreeRows(ticket[0], ticket[1], ticket[2]);
    assert selected == selected[..a] + selected[a..b] + selected[b..];
  }

  lemma SelectionFacts(catalog: seq<Brand>, pick: seq<nat>, shuffled: seq<Brand>, selected: seq<Brand>, ticket: Ticket)
    requires ValidPicks(pick, |catalog|)
    requires shuffled == Shuffled(catalog, pick)
    requires selected == Slice(shuffled, 0, TICKET_SIZE)
    requires |ticket| == TICKET_ROWS
    requires forall k :: 0 <= k < TICKET_ROWS ==>
      ticket[k] == Slice(selected, k * TICKET_COLS, (k + 1) * TICKET_COLS)
    ensures |catalog| >= TICKET_SIZE ==>
      IsFullShape(ticket) && Flat(ticket) == shuffled[..TICKET_SIZE]
    ensures forall r, c :: 0 <= r < |ticket| && 0 <= c < |ticket[r]| ==> ticket[r][c] in catalog
    ensures DistinctIds(catalog) ==> DistinctIds(Flat(ticket))
  {
    var n := |selected|;
    assert selected == shuffled[..n];
    LayoutFlattens(selected, ticket);
    ShuffledPrefixFromCatalog(catalog, pick, n);
    CellsFromFlat(ticket, catalog);
    if DistinctIds(catalog) {
      ShuffledKeepsDistinct(catalog, pick);
      assert shuffled == selected + shuffled[n..];
      DistinctAppend(selected, shuffled[n..]);
    }
  }

  /** Every item of a prefix of the shuffled catalog is a catalog item. */
  lemma ShuffledPrefixFromCatalog(catalog: seq<Brand>, pick: seq<nat>, n: nat)
    requires ValidPicks(pick, |catalog|)
    requires n <= |catalog|
    ensures forall b :: b in Shuffled(catalog, pick)[..n] ==> b in catalog
  {
    ShuffledIsPermutation(catalog, pick);
    var shuffled := Shuffled(catalog, pick);
    forall b | b in shuffled[..n] ensures b in catalog {
      assert b in shuffled;
      assert b in multiset(shuffled);
    }
  }

  /** Every cell of a ticket whose flattening lies in `pool` lies in `pool`. */
  lemma CellsFromFlat(ticket: Ticket, pool: seq<Brand>)
    requires forall b :: b in Flat(ticket) ==> b in pool
    ensures forall r, c :: 0 <= r < |ticket| && 0 <= c < |ticket[r]| ==> ticket[r][c] in pool
  {
    forall r, c | 0 <= r < |ticket| && 0 <= c < |ticket[r]| ensures ticket[r][c] in pool {
      FlatMembership(ticket, ticket[r][c]);
    }
  }

  // ---------------------------------------------------------------------
  // Claim validation
  // ---------------------------------------------------------------------

  /** How many cells of `cells` have a marked id (`cells.filter(...).length`). */
  function MarkedCount(cells: seq<Brand>, marked: set<string>): (n: nat)
    ensures n <= |cells|
  {
    if cells == [] then 0
    else MarkedCount(cells[..|cells| - 1], marked) + (if cells[|cells| - 1].id in marked then 1 else 0)
  }

  /** Every cell of `row` is marked (`row.every(b => markedIds.has(b.id))`). */
  predicate RowMarked(row: seq<Brand>, marked: set<string>) {
    forall k :: 0 <= k < |row| ==> row[k].id in marked
  }

  /** The row a line claim is about, if `claimType` is a line claim. */
  function LineRow(claimType: string): (r: Option<nat>)
    ensures r.Some? ==> r.value < TICKET_ROWS
    ensures r.Some? ==> claimType in CLAIMS && claimType != TEASER && claimType != JACKPOT
  {
    if claimType == PRIME_TIME then Some(0)
    else if claimType == INTERMISSION then Some(1)
    else if claimType == LATE_NIGHT then Some(2)
    else None
  }

  /** The row a line claim reads exists (indexing a missing row throws). */
  predicate RowsPresent(t: Ticket, claimType: string) {
    LineRow(claimType).Some? ==> LineRow(claimType).value < |t|
  }

  /**
   * `validateClaim(ticket, markedIds, claimType)`. An absent ticket or
   * marked set, and a claim type outside `CLAIMS`, are never valid.
   */
  function ValidateClaim(ticket: Option<Ticket>, marked: Option<set<string>>, claimType: string): (valid: bool)
    requires ticket.Some? && marked.Some? ==> RowsPresent(ticket.value, claimType)
    ensures ticket.None? || marked.None? ==> !valid
    ensures claimType !in CLAIMS ==> !valid
  {
    if ticket.None? || marked.None? then false
    else
      var t, m := ticket.value, marked.value;
      var count := MarkedCount(Flat(t), m);
      if claimType == TEASER then count >= 5
      else if claimType == PRIME_TIME then RowMarked(t[0], m)
      else if claimType == INTERMISSION then RowMarked(t[1], m)
      else if claimType == LATE_NIGHT then RowMarked(t[2], m)
      else if claimType == JACKPOT then count == TICKET_SIZE
      else false
  }

  /** The positions of `cells` whose id is marked. */
  function MarkedPositions(cells: seq<Brand>, marked: set<string>): set<nat> {
    set k: nat | k < |cells| && cells[k].id in marked
  }

  /** The count is the number of marked positions: a marked id counts once per cell carrying it. */
  lemma {:induction false} MarkedCountIsPositions(cells: seq<Brand>, marked: set<string>)
    ensures MarkedCount(cells, marked) == |MarkedPositions(cells, marked)|
  {
    if cells == [] {
      assert MarkedPositions(cells, marked) == {};
    } else {
      var n := |cells| - 1;
      var init := cells[..n];
      MarkedCountIsPositions(init, marked);
      var extra: set<nat> := if cells[n].id in marked then {n} else {};
      assert MarkedPositions(cells, marked) == MarkedPositions(init, marked) + extra;
      assert n !in MarkedPositions(init, marked);
    }
  }

  /** The count reaches the number of cells exactly when every cell is marked. */
  lemma {:induction false} MarkedCountFull(cells: seq<Brand>, marked: set<string>)
    ensures MarkedCount(cells, marked) == |cells| <==> forall k :: 0 <= k < |cells| ==> cells[k].id in marked
  {
    if cells != [] {
      var n := |cells| - 1;
      MarkedCountFull(cells[..n], marked);
      assert forall k :: 0 <= k < n ==> cells[..n][k] == cells[k];
    }
  }

  /** Marks on ids outside `universe` do not change the count, when `universe` covers the cells. */
  lemma {:induction false} MarkedCountIgnoresOthers(cells: seq<Brand>, marked: set<string>, universe: set<string>)
    requires Ids(cells) <= universe
    ensures MarkedCount(cells, marked) == MarkedCount(cells, marked * universe)
  {
    if cells != [] {
      var n := |cells| - 1;
      assert cells[n] in cells;
      assert Ids(cells[..n]) <= Ids(cells) by {
        forall b | b in cells[..n] ensures b in cells { }
      }
      MarkedCountIgnoresOthers(cells[..n], marked, universe);
    }
  }

  lemma IdsSnoc(init: seq<Brand>, x: Brand)
    ensures Ids(init + [x]) == Ids(init) + {x.id}
  {
    var s := init + [x];
    forall b | b in s ensures b in init || b == x {
      var k :| 0 <= k < |s| && s[k] == b;
      if k < |init| { assert init[k] == b; }
    }
    assert x in s;
    forall b | b in init ensures b in s { }
  }

  /** On cells with distinct ids the count is the size of the marked part of the ticket's ids. */
  lemma {:induction false} MarkedCountOfDistinct(cells: seq<Brand>, marked: set<string>)
    requires DistinctIds(cells)
    ensures MarkedCount(cells, marked) == |marked * Ids(cells)|
  {
    if cells == [] {
      assert marked * Ids(cells) == {};
    } else {
      var n := |cells| - 1;
      var init, x := cells[..n], cells[n];
      assert cells == init + [x];
      DistinctSnoc(init, x);
      MarkedCountOfDistinct(init, marked);
      MarkedIdsSnoc(init, x, marked);
    }
  }

  lemma DistinctSnoc(init: seq<Brand>, x: Brand)
    requires DistinctIds(init + [x])
    ensures DistinctIds(init) && x.id !in Ids(init)
  {
    DistinctAppend(init, [x]);
    IdsSnoc([], x);
    assert [] + [x] == [x];
  }

  lemma MarkedIdsSnoc(init: seq<Brand>, x: Brand, marked: set<string>)
    requires x.id !in Ids(init)
    ensures |marked * Ids(init + [x])| == |marked * Ids(init)| + (if x.id in marked then 1 else 0)
  {
    IdsSnoc(init, x);
    var before := marked * Ids(init);
    if x.id in marked {
      assert marked * Ids(init + [x]) == before + {x.id};
    } else {
      assert marked * Ids(init + [x]) == before;
    }
  }

  /** Teaser holds iff at least five cells of the ticket carry a marked id. */
  lemma TeaserIff(t: Ticket, marked: set<string>)
    ensures ValidateClaim(Some(t), Some(marked), TEASER) <==> |MarkedPositions(Flat(t), marked)| >= 5
  {
    MarkedCountIsPositions(Flat(t), marked);
  }

  /** Prime Time, Intermission and Late Night hold iff every cell of row 0, 1, 2 is marked. */
  lemma LineClaimIff(t: Ticket, marked: set<string>, claimType: string)
    requires LineRow(claimType).Some? && LineRow(claimType).value < |t|
    ensures ValidateClaim(Some(t), Some(marked), claimType) <==>
      forall c :: 0 <= c < |t[LineRow(claimType).value]| ==> t[LineRow(claimType).value][c].id in marked
  {
  }

  /** The three line claims by name: top, middle and bottom row fully marked. */
  lemma LineClaimsByName(t: Ticket, marked: set<string>)
    requires |t| >= TICKET_ROWS
    ensures ValidateClaim(Some(t), Some(marked), PRIME_TIME) <==> RowMarked(t[0], marked)
    ensures ValidateClaim(Some(t), Some(marked), INTERMISSION) <==> RowMarked(t[1], marked)
    ensures ValidateClaim(Some(t), Some(marked), LATE_NIGHT) <==> RowMarked(t[2], marked)
  {
  }

  /** On a full 3x5 ticket, Jackpot holds iff every cell is marked. */
  lemma JackpotIff(t: Ticket, marked: set<string>)
    requires IsFullShape(t)
    ensures ValidateClaim(Some(t), Some(marked), JACKPOT) <==>
      forall r, c :: 0 <= r < TICKET_ROWS && 0 <= c < TICKET_COLS ==> t[r][c].id in marked
  {
    FlatOfFullShape(t);
    MarkedCountFull(Flat(t), marked);
    var cells := Flat(t);
    if forall r, c :: 0 <= r < TICKET_ROWS && 0 <= c < TICKET_COLS ==> t[r][c].id in marked {
      forall k | 0 <= k < |cells| ensures cells[k].id in marked {
        FlatMembership(t, cells[k]);
        var r :| 0 <= r < |t| && cells[k] in t[r];
        var c :| 0 <= c < |t[r]| && t[r][c] == cells[k];
      }
    }
    if forall k :: 0 <= k < |cells| ==> cells[k].id in marked {
      forall r, c | 0 <= r < TICKET_ROWS && 0 <= c < TICKET_COLS ensures t[r][c].id in marked {
        FlatMembership(t, t[r][c]);
        var k :| 0 <= k < |cells| && cells[k] == t[r][c];
      }
    }
  }

  /** A Jackpot on a full ticket also wins every line claim and the Teaser. */
  lemma JackpotWinsEverything(t: Ticket, marked: set<string>)
    requires IsFullShape(t)
    requires ValidateClaim(Some(t), Some(marked), JACKPOT)
    ensures ValidateClaim(Some(t), Some(marked), TEASER)
    ensures ValidateClaim(Some(t), Some(marked), PRIME_TIME)
    ensures ValidateClaim(Some(t), Some(marked), INTERMISSION)
    ensures ValidateClaim(Some(t), Some(marked), LATE_NIGHT)
  {
    JackpotIff(t, marked);
  }

  /** Marked ids that are not on the ticket never change a verdict. */
  lemma OffTicketMarksIgnored(t: Ticket, marked: set<string>, claimType: string)
    requires RowsPresent(t, claimType)
    ensures ValidateClaim(Some(t), Some(marked), claimType) ==
      ValidateClaim(Some(t), Some(marked * Ids(Flat(t))), claimType)
  {
    var onTicket := marked * Ids(Flat(t));
    MarkedCountIgnoresOthers(Flat(t), marked, Ids(Flat(t)));
    if LineRow(claimType).Some? {
      var row := t[LineRow(claimType).value];
      forall k | 0 <= k < |row| ensures row[k].id in marked <==> row[k].id in onTicket {
        FlatMembership(t, row[k]);
      }
    }
  }

  /**
   * On a full ticket with distinct ids, Jackpot holds iff all fifteen ticket
   * ids are marked, and Teaser iff at least five of them are.
   */
  lemma DistinctTicketCounts(t: Ticket, marked: set<string>)
    requires IsFullShape(t) && DistinctIds(Flat(t))
    ensures ValidateClaim(Some(t), Some(marked), JACKPOT) <==> |marked * Ids(Flat(t))| == TICKET_SIZE
    ensures ValidateClaim(Some(t), Some(marked), TEASER) <==> |marked * Ids(Flat(t))| >= 5
  {
    MarkedCountOfDistinct(Flat(t), marked);
  }
}
