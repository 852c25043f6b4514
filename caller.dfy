/**
 * The caller: on mount it builds a pool of the catalog items not yet in the
 * history, items with an audio cue first, each group shuffled on its own,
 * and then hands out one call at a time from the front of that pool.
 */
module Caller {
  import opened Wrappers
  import opened Brands
  import opened Protocol
  import opened GameUtils

  // ---------------------------------------------------------------------
  // Building the pool
  // ---------------------------------------------------------------------

  /** The ids already called (`new Set(history.map(h => h.id))`). */
  function HistoryIds(history: seq<Call>): set<string> {
    set c | c in history :: c.brand.id
  }

  /** The catalog items whose id is not in the history, in catalog order. */
  function Available(catalog: seq<Brand>, history: seq<Call>): (r: seq<Brand>)
    ensures forall b :: b in r <==> b in catalog && b.id !in HistoryIds(history)
  {
    var called := HistoryIds(history);
    Select(catalog, id => id in called, false)
  }

  /** The available items that have an audio cue (`want`) or lack one (`!want`). */
  function AudioGroup(catalog: seq<Brand>, history: seq<Call>, hasAudio: string -> bool, want: bool): (r: seq<Brand>)
    ensures forall b :: b in r <==> b in Available(catalog, history) && hasAudio(b.id) == want
  {
    Select(Available(catalog, history), hasAudio, want)
  }

  /** The pool `initializePool` builds, given the random choices for each group's shuffle. */
  function InitialPool(catalog: seq<Brand>, history: seq<Call>, hasAudio: string -> bool,
                       pickAudio: seq<nat>, pickSilent: seq<nat>): seq<Brand>
    requires ValidPicks(pickAudio, |AudioGroup(catalog, history, hasAudio, true)|)
    requires ValidPicks(pickSilent, |AudioGroup(catalog, history, hasAudio, false)|)
  {
    Shuffled(AudioGroup(catalog, history, hasAudio, true), pickAudio)
      + Shuffled(AudioGroup(catalog, history, hasAudio, false), pickSilent)
  }

  /** The initial pool is a permutation of the catalog items not yet called. */
  lemma InitialPoolIsPermutation(catalog: seq<Brand>, history: seq<Call>, hasAudio: string -> bool,
                                 pickAudio: seq<nat>, pickSilent: seq<nat>)
    requires ValidPicks(pickAudio, |AudioGroup(catalog, history, hasAudio, true)|)
    requires ValidPicks(pickSilent, |AudioGroup(catalog, history, hasAudio, false)|)
    ensures multiset(InitialPool(catalog, history, hasAudio, pickAudio, pickSilent)) == multiset(Available(catalog, history))
    ensures forall b :: b in InitialPool(catalog, history, hasAudio, pickAudio, pickSilent) ==>
      b in catalog && b.id !in HistoryIds(history)
  {
    var withAudio := AudioGroup(catalog, history, hasAudio, true);
    var silent := AudioGroup(catalog, history, hasAudio, false);
    ShuffledIsPermutation(withAudio, pickAudio);
    ShuffledIsPermutation(silent, pickSilent);
    SelectPartitions(Available(catalog, history), hasAudio);
    var pool := InitialPool(catalog, history, hasAudio, pickAudio, pickSilent);
    assert multiset(pool) == multiset(withAudio) + multiset(silent);
    forall b | b in pool ensures b in catalog && b.id !in HistoryIds(history) {
      assert b in multiset(pool);
    }
  }

  /** In the initial pool every item with an audio cue comes before every item without one. */
  lemma InitialPoolAudioFirst(catalog: seq<Brand>, history: seq<Call>, hasAudio: string -> bool,
                              pickAudio: seq<nat>, pickSilent: seq<nat>)
    requires ValidPicks(pickAudio, |AudioGroup(catalog, history, hasAudio, true)|)
    requires ValidPicks(pickSilent, |AudioGroup(catalog, history, hasAudio, false)|)
    ensures var pool := InitialPool(catalog, history, hasAudio, pickAudio, pickSilent);
      forall i, j :: 0 <= i < j < |pool| && hasAudio(pool[j].id) ==> hasAudio(pool[i].id)
  {
    var withAudio := AudioGroup(catalog, history, hasAudio, true);
    var silent := AudioGroup(catalog, history, hasAudio, false);
    var a := Shuffled(withAudio, pickAudio);
    var b := Shuffled(silent, pickSilent);
    ShuffledIsPermutation(withAudio, pickAudio);
    ShuffledIsPermutation(silent, pickSilent);
    var pool := a + b;
    forall k | 0 <= k < |pool| ensures hasAudio(pool[k].id) <==> k < |a| {
      if k < |a| {
        assert pool[k] == a[k] && a[k] in multiset(withAudio);
      } else {
        assert pool[k] == b[k - |a|] && b[k - |a|] in multiset(silent);
      }
    }
  }

  /** With distinct catalog ids, the initial pool holds no id twice. */
  lemma InitialPoolDistinct(catalog: seq<Brand>, history: seq<Call>, hasAudio: string -> bool,
                            pickAudio: seq<nat>, pickSilent: seq<nat>)
    requires DistinctIds(catalog)
    requires ValidPicks(pickAudio, |AudioGroup(catalog, history, hasAudio, true)|)
    requires ValidPicks(pickSilent, |AudioGroup(catalog, history, hasAudio, false)|)
    ensures DistinctIds(InitialPool(catalog, history, hasAudio, pickAudio, pickSilent))
  {
    var called := HistoryIds(history);
    var avail := Available(catalog, history);
    SelectKeepsDistinct(catalog, id => id in called, false);
    var withAudio := AudioGroup(catalog, history, hasAudio, true);
    var silent := AudioGroup(catalog, history, hasAudio, false);
    SelectKeepsDistinct(avail, hasAudio, true);
    SelectKeepsDistinct(avail, hasAudio, false);
    var a := Shuffled(withAudio, pickAudio);
    var b := Shuffled(silent, pickSilent);
    ShuffledKeepsDistinct(withAudio, pickAudio);
    ShuffledKeepsDistinct(silent, pickSilent);
    ShuffledIsPermutation(withAudio, pickAudio);
    ShuffledIsPermutation(silent, pickSilent);
    PermutationKeepsIds(a, withAudio);
    PermutationKeepsIds(b, silent);
    assert Ids(withAudio) !! Ids(silent) by {
      forall u, v | u in withAudio && v in silent ensures u.id != v.id { }
    }
    DistinctAppend(a, b);
  }

  // ---------------------------------------------------------------------
  // The caller component
  // ---------------------------------------------------------------------

  /** The tagline at `k`, absent when `k` is out of range. */
  function TaglineAt(taglines: seq<string>, k: nat): (t: Option<string>)
    ensures t.Some? <==> k < |taglines|
    ensures t.Some? ==> t.value in taglines
  {
    if k < |taglines| then Some(taglines[k]) else None
  }

  class Caller {
    /** The items still to call, front first. */
    var pool: seq<Brand>
    var poolReady: bool
    /** The item on screen, and whether its name has been revealed. */
    var currentBrand: Option<Brand>
    var revealed: bool
    /** The ids the audio probe found a cue for. */
    var audioIds: set<string>

    /** The pool as built on mount, and the items called from it so far. */
    ghost var initialPool: seq<Brand>
    ghost var dealt: seq<Brand>

    ghost predicate Valid()
      reads this
    {
      && dealt + pool == initialPool
      && (!poolReady ==> initialPool == [] && dealt == [] && pool == [])
    }

    /** Mount: an empty pool that is not yet ready. */
    constructor ()
      ensures Valid()
      ensures pool == [] && !poolReady && currentBrand == None && !revealed && audioIds == {}
    {
      pool := [];
      poolReady := false;
      currentBrand := None;
      revealed := false;
      audioIds := {};
      initialPool := [];
      dealt := [];
    }

    /** The in-component `shuffleArray`, the same countdown shuffle as `shuffle`. */
    static method ShuffleArray(items: seq<Brand>, pick: seq<nat>) returns (r: seq<Brand>)
      requires ValidPicks(pick, |items|)
      ensures r == Shuffled(items, pick)
      ensures multiset(r) == multiset(items)
    {
      r := Shuffle(items, pick);
    }

    /**
     * `initializePool()`, which runs once on mount: drop the ids already in
     * `history`, split the rest by the audio probe, shuffle each half and
     * put the audio half first.
     */
    method InitializePool(catalog: seq<Brand>, history: seq<Call>, hasAudio: string -> bool,
                          pickAudio: seq<nat>, pickSilent: seq<nat>)
      requires Valid() && !poolReady
      requires ValidPicks(pickAudio, |AudioGroup(catalog, history, hasAudio, true)|)
      requires ValidPicks(pickSilent, |AudioGroup(catalog, history, hasAudio, false)|)
      modifies this`pool, this`poolReady, this`audioIds, this`initialPool, this`dealt
      ensures Valid() && poolReady
      ensures pool == InitialPool(catalog, history, hasAudio, pickAudio, pickSilent)
      ensures initialPool == pool && dealt == []
      ensures audioIds == old(audioIds) + Ids(AudioGroup(catalog, history, hasAudio, true))
    {
      var withAudio := AudioGroup(catalog, history, hasAudio, true);
      var silent := AudioGroup(catalog, history, hasAudio, false);
      var first := ShuffleArray(withAudio, pickAudio);
      var rest := ShuffleArray(silent, pickSilent);
      audioIds := audioIds + Ids(withAudio);
      pool := first + rest;
      poolReady := true;
      initialPool := pool;
      dealt := [];
    }

    /**
     * `handleCallNext()`. With an empty or unready pool it does nothing and
     * makes no call. Otherwise it takes the head of the pool, shows it
     * unrevealed, and returns the call: the item with the tagline at
     * `tagIndex`, the random index into its taglines.
     */
    method CallNext(tagIndex: nat) returns (call: Option<Call>)
      requires Valid()
      requires pool != [] && pool[0].taglines != [] ==> tagIndex < |pool[0].taglines|
      modifies this
      ensures Valid()
      ensures old(pool) == [] || !old(poolReady) ==>
        call == None && pool == old(pool) && currentBrand == old(currentBrand) && revealed == old(revealed)
        && dealt == old(dealt)
      ensures old(pool) != [] && old(poolReady) ==>
        && call == Some(Call(old(pool)[0], TaglineAt(old(pool)[0].taglines, tagIndex)))
        && pool == old(pool)[1..] && |pool| == |old(pool)| - 1
        && currentBrand == Some(old(pool)[0]) && !revealed
        && dealt == old(dealt) + [old(pool)[0]]
      ensures call.Some? && call.value.brand.taglines != [] ==>
        call.value.tagline.Some? && call.value.tagline.value in call.value.brand.taglines
      ensures poolReady == old(poolReady) && initialPool == old(initialPool) && audioIds == old(audioIds)
    {
      if |pool| == 0 || !poolReady {
        return None;
      }
      var selected := pool[0];
      dealt := dealt + [selected];
      pool := pool[1..];
      currentBrand := Some(selected);
      revealed := false;
      call := Some(Call(selected, TaglineAt(selected.taglines, tagIndex)));
    }

    /** The reveal button: show the current item's name. */
    method Reveal()
      modifies this`revealed
      ensures revealed
    {
      revealed := true;
    }

    /** The call button is enabled exactly while the pool is ready and not empty. */
    predicate CanCallNext()
      reads this
    {
      poolReady && pool != []
    }

    /** The call button's label. */
    function ButtonLabel(): (text: string)
      reads this
      ensures !poolReady ==> text == "Loading..."
      ensures poolReady && pool == [] ==> text == "Show Over"
      ensures CanCallNext() ==> text == "Next Ad >>"
    {
      if !poolReady then "Loading..." else if pool == [] then "Show Over" else "Next Ad >>"
    }
  }

  /**
   * The button reads "Show Over", and calling is disabled, exactly when
   * every item of the pool built on mount has been called.
   */
  lemma ShowOverOnceAllDealt(c: Caller)
    requires c.Valid() && c.poolReady
    ensures c.ButtonLabel() == "Show Over" <==> |c.dealt| == |c.initialPool|
    ensures !c.CanCallNext() <==> |c.dealt| == |c.initialPool|
  {
  }

  /**
   * What the caller has handed out is a prefix of the pool it built: with
   * distinct ids no item is called twice, and there are never more calls
   * than items in the initial pool.
   */
  lemma DealtAreDistinct(dealt: seq<Brand>, pool: seq<Brand>, initialPool: seq<Brand>)
    requires dealt + pool == initialPool
    requires DistinctIds(initialPool)
    ensures DistinctIds(dealt) && |dealt| <= |initialPool|
    ensures Ids(dealt) !! Ids(pool)
  {
    DistinctAppend(dealt, pool);
  }
}
