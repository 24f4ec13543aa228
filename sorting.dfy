/**
 * The `.sort({ field: -1 })` step of a MongoDB query: the documents of a collection that match a
 * filter, as (id, document) pairs in non-increasing order of one field. Documents whose fields
 * are equal may come out in any order, as MongoDB leaves that order unspecified.
 */
module Sorting {

  predicate SortedDesc<K, V>(s: seq<(K, V)>, key: V -> int)
  {
    forall i, j :: 0 <= i < j < |s| ==> key(s[i].1) >= key(s[j].1)
  }

  predicate DistinctKeys<K(==), V>(s: seq<(K, V)>)
  {
    forall i, j :: 0 <= i < j < |s| ==> s[i].0 != s[j].0
  }

  /** Where `x` goes in a non-increasing `s`: after every entry whose key is at least `x`'s. */
  function InsertPos<K, V>(x: (K, V), s: seq<(K, V)>, key: V -> int): (i: nat)
    ensures i <= |s|
    ensures forall j :: 0 <= j < i ==> key(s[j].1) >= key(x.1)
    ensures SortedDesc(s, key) ==> forall j :: i <= j < |s| ==> key(s[j].1) < key(x.1)
  {
    if s == [] || key(s[0].1) < key(x.1) then 0 else 1 + InsertPos(x, s[1..], key)
  }

  /** The sequence `s` with `x` placed at index `i`. */
  function Splice<K, V>(s: seq<(K, V)>, i: nat, x: (K, V)): (r: seq<(K, V)>)
    requires i <= |s|
    ensures |r| == |s| + 1
    ensures forall j :: 0 <= j < |r| ==> r[j] == (if j < i then s[j] else if j == i then x else s[j - 1])
  {
    s[..i] + [x] + s[i..]
  }

  lemma SpliceMembers<K, V>(s: seq<(K, V)>, i: nat, x: (K, V))
    requires i <= |s|
    ensures forall e :: e in Splice(s, i, x) <==> e in s || e == x
  {
    assert s == s[..i] + s[i..];
  }

  /** Inserting `x` at `InsertPos` keeps the order. */
  lemma InsertSorted<K, V>(x: (K, V), s: seq<(K, V)>, key: V -> int)
    requires SortedDesc(s, key)
    ensures SortedDesc(Splice(s, InsertPos(x, s, key), x), key)
  {
    var i := InsertPos(x, s, key);
    var r := Splice(s, i, x);
    forall a, b | 0 <= a < b < |r| ensures key(r[a].1) >= key(r[b].1) {
      if a < i && b > i {
        assert key(r[a].1) >= key(x.1) > key(r[b].1);
      }
    }
  }

  /** Inserting an entry with a new id keeps the ids distinct. */
  lemma InsertDistinct<K, V>(x: (K, V), s: seq<(K, V)>, i: nat)
    requires i <= |s| && DistinctKeys(s)
    requires forall e :: e in s ==> e.0 != x.0
    ensures DistinctKeys(Splice(s, i, x))
  {
    var r := Splice(s, i, x);
    forall a, b | 0 <= a < b < |r| ensures r[a].0 != r[b].0 {
      if a == i {
        assert r[b] in s;
      } else if b == i {
        assert r[a] in s;
      }
    }
  }

  /**
   * All entries of `m` whose value satisfies `keep`, each exactly once, in non-increasing
   * order of `key`.
   */
  method CollectDesc<K(==), V(==)>(m: map<K, V>, keep: V -> bool, key: V -> int) returns (s: seq<(K, V)>)
    ensures SortedDesc(s, key)
    ensures DistinctKeys(s)
    ensures forall e :: e in s <==> e.0 in m && e.1 == m[e.0] && keep(e.1)
  {
    s := [];
    var rest := m.Keys;
    while rest != {}
      invariant rest <= m.Keys
      invariant SortedDesc(s, key) && DistinctKeys(s)
      invariant forall e :: e in s <==> e.0 in m && e.0 !in rest && e.1 == m[e.0] && keep(e.1)
      decreases rest
    {
      var k :| k in rest;
      if keep(m[k]) {
        var x := (k, m[k]);
        var i := InsertPos(x, s, key);
        InsertSorted(x, s, key);
        InsertDistinct(x, s, i);
        SpliceMembers(s, i, x);
        s := Splice(s, i, x);
      }
      rest := rest - {k};
    }
  }
}
