/** Insertion-ordered dictionaries: a sequence of pairs with no repeated key. */
module Dicts {
  import opened Options

  function Lookup<K(==), V>(d: seq<(K, V)>, key: K): (r: Option<V>)
    ensures r.Some? ==> exists i :: 0 <= i < |d| && d[i] == (key, r.value)
    ensures r.None? ==> forall i | 0 <= i < |d| :: d[i].0 != key
  {
    if d == [] then None
    else if d[|d| - 1].0 == key then Some(d[|d| - 1].1)
    else Lookup(d[..|d| - 1], key)
  }

  function Replaced<K(==), V>(d: seq<(K, V)>, key: K, value: V): seq<(K, V)> {
    seq(|d|, i requires 0 <= i < |d| => if d[i].0 == key then (key, value) else d[i])
  }

  // `d[key] = value`: in place when the key is there, else at the end.
  function Put<K(==), V>(d: seq<(K, V)>, key: K, value: V): seq<(K, V)> {
    if Lookup(d, key).None? then d + [(key, value)] else Replaced(d, key, value)
  }

  ghost predicate Distinct<K, V>(d: seq<(K, V)>) {
    forall i, j | 0 <= i < j < |d| :: d[i].0 != d[j].0
  }

  lemma {:induction false} LookupReplaced<K, V>(d: seq<(K, V)>, key: K, value: V, k: K)
    ensures Lookup(Replaced(d, key, value), k) ==
            if k == key && Lookup(d, key).Some? then Some(value) else Lookup(d, k)
  {
    if d != [] {
      assert Replaced(d, key, value)[..|d| - 1] == Replaced(d[..|d| - 1], key, value);
      LookupReplaced(d[..|d| - 1], key, value, k);
    }
  }

  lemma PutLookup<K, V>(d: seq<(K, V)>, key: K, value: V, k: K)
    ensures Lookup(Put(d, key, value), k) == if k == key then Some(value) else Lookup(d, k)
    ensures Distinct(d) ==> Distinct(Put(d, key, value))
  {
    if Lookup(d, key).None? {
      assert (d + [(key, value)])[..|d|] == d;
    } else {
      LookupReplaced(d, key, value, k);
    }
  }

  // A dict built from pairs in order: a repeated key keeps its place and takes the later value.
  function DictOf<K(==), V>(pairs: seq<(K, V)>): seq<(K, V)> {
    if pairs == [] then []
    else Put(DictOf(pairs[..|pairs| - 1]), pairs[|pairs| - 1].0, pairs[|pairs| - 1].1)
  }

  lemma {:induction false} DictLookup<K, V>(pairs: seq<(K, V)>, k: K)
    ensures Lookup(DictOf(pairs), k) == Lookup(pairs, k)
  {
    if pairs != [] {
      var before := pairs[..|pairs| - 1];
      DictLookup(before, k);
      PutLookup(DictOf(before), pairs[|pairs| - 1].0, pairs[|pairs| - 1].1, k);
    }
  }

  lemma DistinctSnoc<K, V>(d: seq<(K, V)>, last: (K, V))
    ensures Distinct(d + [last]) <==> Distinct(d) && Lookup(d, last.0).None?
  {
    var e := d + [last];
    assert forall i | 0 <= i < |d| :: e[i] == d[i];
    if Lookup(d, last.0).Some? {
      var i :| 0 <= i < |d| && d[i] == (last.0, Lookup(d, last.0).value);
      assert e[i].0 == e[|d|].0;
    }
  }

  /** Building a dict keeps every pair exactly when no key repeats. */
  lemma {:induction false} DictOfKeepsIff<K, V>(pairs: seq<(K, V)>)
    ensures |DictOf(pairs)| <= |pairs|
    ensures |DictOf(pairs)| == |pairs| <==> Distinct(pairs)
    ensures Distinct(pairs) ==> DictOf(pairs) == pairs
  {
    if pairs != [] {
      var before := pairs[..|pairs| - 1];
      var last := pairs[|pairs| - 1];
      DictOfKeepsIff(before);
      DictLookup(before, last.0);
      assert pairs == before + [last];
      DistinctSnoc(before, last);
    }
  }

  lemma LookupDistinct<K, V>(d: seq<(K, V)>, key: K, value: V)
    requires Distinct(d) && (key, value) in d
    ensures Lookup(d, key) == Some(value)
  {
    var i :| 0 <= i < |d| && d[i] == (key, value);
    assert Lookup(d, key).Some?;
    var j :| 0 <= j < |d| && d[j] == (key, Lookup(d, key).value);
    assert !(i < j) && !(j < i);
  }
}
