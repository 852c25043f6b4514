/**
 * The catalog items ("brands") the game calls out and lays on tickets,
 * and the facts about their ids that the shuffler, the ticket builder and
 * the caller rely on.
 */
module Brands {

  /** One catalog entry: a unique id, a display name and its taglines. */
  datatype Brand = Brand(id: string, name: string, taglines: seq<string>)

  /** The ids that occur in `s`. */
  function Ids(s: seq<Brand>): set<string> {
    set b | b in s :: b.id
  }

  /** No two positions of `s` hold items with the same id. */
  predicate DistinctIds(s: seq<Brand>) {
    forall i, j :: 0 <= i < j < |s| ==> s[i].id != s[j].id
  }

  /**
   * The items of `s`, in order, whose id satisfies `p` exactly when `want`
   * holds: `Select(s, p, true)` is `s.filter(b => p(b.id))` and
   * `Select(s, p, false)` is `s.filter(b => !p(b.id))`.
   */
  function Select(s: seq<Brand>, p: string -> bool, want: bool): (r: seq<Brand>)
    ensures |r| <= |s|
    ensures forall b :: b in r <==> b in s && p(b.id) == want
  {
    if s == [] then []
    else (if p(s[0].id) == want then [s[0]] else []) + Select(s[1..], p, want)
  }

  /** The two halves of a filter and its complement together hold every item once. */
  lemma {:induction false} SelectPartitions(s: seq<Brand>, p: string -> bool)
    ensures multiset(Select(s, p, true)) + multiset(Select(s, p, false)) == multiset(s)
  {
    if s != [] {
      var rest := s[1..];
      SelectPartitions(rest, p);
      assert s == [s[0]] + rest;
      assert multiset(s) == multiset{s[0]} + multiset(rest);
      if p(s[0].id) {
        assert Select(s, p, true) == [s[0]] + Select(rest, p, true);
        assert Select(s, p, false) == Select(rest, p, false);
      } else {
        assert Select(s, p, true) == Select(rest, p, true);
        assert Select(s, p, false) == [s[0]] + Select(rest, p, false);
      }
    }
  }

  lemma DistinctCons(x: Brand, t: seq<Brand>)
    ensures DistinctIds([x] + t) <==> x.id !in Ids(t) && DistinctIds(t)
  {
    var s := [x] + t;
    if DistinctIds(s) {
      forall j | 0 <= j < |t| ensures t[j].id != x.id { assert s[0] == x && s[j + 1] == t[j]; }
      forall i, j | 0 <= i < j < |t| ensures t[i].id != t[j].id { assert s[i + 1] == t[i] && s[j + 1] == t[j]; }
    }
    if x.id !in Ids(t) && DistinctIds(t) {
      forall i, j | 0 <= i < j < |s| ensures s[i].id != s[j].id {
        if i == 0 {
          assert s[j] == t[j - 1];
          assert t[j - 1] in t;
        } else {
          assert s[i] == t[i - 1] && s[j] == t[j - 1];
        }
      }
    }
  }

  /** A filter of a sequence with distinct ids has distinct ids. */
  lemma {:induction false} SelectKeepsDistinct(s: seq<Brand>, p: string -> bool, want: bool)
    requires DistinctIds(s)
    ensures DistinctIds(Select(s, p, want))
  {
    if s != [] {
      assert s == [s[0]] + s[1..];
      DistinctCons(s[0], s[1..]);
      SelectKeepsDistinct(s[1..], p, want);
      var rest := Select(s[1..], p, want);
      if p(s[0].id) == want {
        assert s[0].id !in Ids(rest);
        DistinctCons(s[0], rest);
      } else {
        assert Select(s, p, want) == [] + rest;
      }
    }
  }

  /** Two sequences that are permutations of each other carry the same ids. */
  lemma PermutationKeepsIds(a: seq<Brand>, b: seq<Brand>)
    requires multiset(a) == multiset(b)
    ensures Ids(a) == Ids(b)
  {
    forall x | x in a ensures x in b { assert x in multiset(a); }
    forall x | x in b ensures x in a { assert x in multiset(b); }
  }

  /** A concatenation has distinct ids iff both parts do and they share no id. */
  lemma DistinctAppend(a: seq<Brand>, b: seq<Brand>)
    ensures DistinctIds(a + b) <==> DistinctIds(a) && DistinctIds(b) && Ids(a) !! Ids(b)
  {
    var s := a + b;
    if DistinctIds(s) {
      forall i, j | 0 <= i < j < |a| ensures a[i].id != a[j].id { assert s[i] == a[i] && s[j] == a[j]; }
      forall i, j | 0 <= i < j < |b| ensures b[i].id != b[j].id {
        assert s[|a| + i] == b[i] && s[|a| + j] == b[j];
      }
      forall i, j | 0 <= i < |a| && 0 <= j < |b| ensures a[i].id != b[j].id {
        assert s[i] == a[i] && s[|a| + j] == b[j];
      }
      forall u, v | u in a && v in b ensures u.id != v.id {
        var i :| 0 <= i < |a| && a[i] == u;
        var j :| 0 <= j < |b| && b[j] == v;
      }
    }
    if DistinctIds(a) && DistinctIds(b) && Ids(a) !! Ids(b) {
      forall i, j | 0 <= i < j < |s| ensures s[i].id != s[j].id {
        if j < |a| {
          assert s[i] == a[i] && s[j] == a[j];
        } else if i >= |a| {
          assert s[i] == b[i - |a|] && s[j] == b[j - |a|];
        } else {
          assert s[i] == a[i] && s[j] == b[j - |a|];
          assert a[i] in a && b[j - |a|] in b;
          assert s[i].id in Ids(a) && s[j].id in Ids(b);
        }
      }
    }
  }
}
