/**
  Listings of the repository's maps.

  The repository hands out the entries of a map as a slice, in Go's
  (unspecified) map iteration order. `Lists(r, m, key)` says that the sequence
  r enumerates the entries of m once each, in some order: its elements have
  distinct keys and, indexed by key, they are exactly m.
*/
module Listings {

  /** Every entry of m is stored under its own key. */
  predicate KeyedBy<T>(m: map<int, T>, key: T -> int)
  {
    forall k :: k in m ==> key(m[k]) == k
  }

  /** The entries of m whose value keep accepts. */
  function Filter<T>(m: map<int, T>, keep: T -> bool): (r: map<int, T>)
    ensures forall k :: k in r <==> k in m && keep(m[k])
    ensures forall k :: k in r ==> r[k] == m[k]
  {
    map k | k in m && keep(m[k]) :: m[k]
  }

  /** The map of a listing: each element under its key. */
  function Index<T>(r: seq<T>, key: T -> int): map<int, T>
  {
    if r == [] then map[]
    else Index(r[..|r| - 1], key)[key(r[|r| - 1]) := r[|r| - 1]]
  }

  predicate DistinctKeys<T>(r: seq<T>, key: T -> int)
  {
    forall i, j :: 0 <= i < j < |r| ==> key(r[i]) != key(r[j])
  }

  /** r enumerates the entries of m, each once, in some order. */
  predicate Lists<T(==)>(r: seq<T>, m: map<int, T>, key: T -> int)
  {
    DistinctKeys(r, key) && Index(r, key) == m
  }

  /** The keys of a listing's map are exactly the keys of its elements. */
  lemma {:induction false} IndexKeys<T>(r: seq<T>, key: T -> int)
    ensures forall i :: 0 <= i < |r| ==> key(r[i]) in Index(r, key)
    ensures forall k :: k in Index(r, key) ==> exists i :: 0 <= i < |r| && key(r[i]) == k
  {
    if r != [] {
      IndexKeys(r[..|r| - 1], key);
    }
  }

  lemma IndexPrefix<T>(r: seq<T>, i: nat, key: T -> int)
    requires i < |r|
    ensures Index(r[..i + 1], key) == Index(r[..i], key)[key(r[i]) := r[i]]
  {
    assert r[..i + 1][..i] == r[..i];
  }

  /** The next element of a listing is not yet among the entries of its prefix. */
  lemma NextIsNew<T>(r: seq<T>, i: nat, key: T -> int)
    requires DistinctKeys(r, key) && i < |r|
    ensures key(r[i]) !in Index(r[..i], key)
  {
    IndexKeys(r[..i], key);
  }

  /** Appending an element whose key is not yet indexed keeps the keys distinct. */
  lemma AppendNew<T>(r: seq<T>, x: T, key: T -> int)
    requires DistinctKeys(r, key) && key(x) !in Index(r, key)
    ensures DistinctKeys(r + [x], key) && Index(r + [x], key) == Index(r, key)[key(x) := x]
  {
    IndexKeys(r, key);
    assert (r + [x])[..|r|] == r;
  }

  /** A listing holds as many elements as its map has entries. */
  lemma {:induction false} ListsLength<T>(r: seq<T>, m: map<int, T>, key: T -> int)
    requires Lists(r, m, key)
    ensures |r| == |m|
  {
    if r != [] {
      var init := r[..|r| - 1];
      var last := r[|r| - 1];
      NextIsNew(r, |r| - 1, key);
      assert DistinctKeys(init, key);
      ListsLength(init, Index(init, key), key);
      assert m.Keys == Index(init, key).Keys + {key(last)};
    }
  }

  /** Each element of a listing is the map's entry under its key. */
  lemma ListedAreEntries<T>(r: seq<T>, m: map<int, T>, key: T -> int, i: nat)
    requires Lists(r, m, key) && i < |r|
    ensures key(r[i]) in m && m[key(r[i])] == r[i]
  {
    IndexKeys(r, key);
    ListedFromIndex(r, key, i);
  }

  lemma {:induction false} ListedFromIndex<T>(r: seq<T>, key: T -> int, i: nat)
    requires DistinctKeys(r, key) && i < |r|
    ensures key(r[i]) in Index(r, key) && Index(r, key)[key(r[i])] == r[i]
  {
    if i < |r| - 1 {
      var init := r[..|r| - 1];
      assert init[i] == r[i];
      ListedFromIndex(init, key, i);
    }
  }

  /** The values of m. */
  function Stored<T>(m: map<int, T>): set<T>
  {
    set k | k in m :: m[k]
  }

  /** A non-empty set has an element to pick. */
  lemma Inhabited(s: set<int>)
    requires s != {}
    ensures exists x :: x in s
  {
    if forall x :: x !in s {
      assert false;
    }
  }

  /** The loop shared by every listing query of the repository: walk the keys
      of m in an unspecified order and append each entry that keep accepts. */
  method Collect<T(==)>(m: map<int, T>, keep: T -> bool, key: T -> int) returns (r: seq<T>)
    requires KeyedBy(m, key)
    ensures Lists(r, Filter(m, keep), key)
  {
    r := [];
    var remaining := m.Keys;
    while remaining != {}
      invariant remaining <= m.Keys
      invariant Lists(r, Filter(m, keep) - remaining, key)
      decreases remaining
    {
      Inhabited(remaining);
      var k :| k in remaining;
      if keep(m[k]) {
        AppendNew(r, m[k], key);
        r := r + [m[k]];
      }
      remaining := remaining - {k};
    }
    assert Filter(m, keep) - remaining == Filter(m, keep);
  }
}
