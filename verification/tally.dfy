/**
  Insertion-ordered dictionaries built by the loop
      for x in xs: d[key(x)] = d.get(key(x), 0) + value(x)
  as used for the dashboard's per-date earnings and the admin's status
  histogram. A Python dict keeps keys in first-insertion order, so the
  dictionary is modelled as an association list of (key, value) pairs.
 */
module Tally {

  type Assoc<K> = seq<(K, int)>

  /** Sum of the second components. */
  function Total<K>(ps: seq<(K, int)>): int
  {
    if |ps| == 0 then 0 else ps[0].1 + Total(ps[1..])
  }

  /** Sum of the values paired with key `k`. */
  function TotalFor<K(==)>(ps: seq<(K, int)>, k: K): int
  {
    if |ps| == 0 then 0 else (if ps[0].0 == k then ps[0].1 else 0) + TotalFor(ps[1..], k)
  }

  /** The first components, in order. */
  function KeysOf<K>(ps: seq<(K, int)>): (ks: seq<K>)
    ensures |ks| == |ps|
  {
    if |ps| == 0 then [] else [ps[0].0] + KeysOf(ps[1..])
  }

  /** No key occurs twice, as in any dictionary. */
  ghost predicate DistinctKeys<K>(a: Assoc<K>)
  {
    |a| == 0 || (a[0].0 !in KeysOf(a[1..]) && DistinctKeys(a[1..]))
  }

  /** `d.get(k, 0)`. */
  function Get<K(==)>(a: Assoc<K>, k: K): int
  {
    if |a| == 0 then 0 else if a[0].0 == k then a[0].1 else Get(a[1..], k)
  }

  /** `d[k] = d.get(k, 0) + v`: bump an existing key in place, or append a new one at the end. */
  function Add<K(==,!new)>(a: Assoc<K>, k: K, v: int): (r: Assoc<K>)
    requires DistinctKeys(a)
    ensures DistinctKeys(r)
    ensures Get(r, k) == Get(a, k) + v
    ensures forall k' | k' != k :: Get(r, k') == Get(a, k')
    ensures Total(r) == Total(a) + v
    ensures k in KeysOf(a) ==> KeysOf(r) == KeysOf(a)
    ensures k !in KeysOf(a) ==> KeysOf(r) == KeysOf(a) + [k]
  {
    if |a| == 0 then
      [(k, v)]
    else if a[0].0 == k then
      GetMissing(a[1..], k);
      var r := [(k, a[0].1 + v)] + a[1..];
      assert r[1..] == a[1..];
      r
    else
      var rest := Add(a[1..], k, v);
      var r := [a[0]] + rest;
      assert r[1..] == rest;
      r
  }

  lemma {:induction false} GetMissing<K>(a: Assoc<K>, k: K)
    requires k !in KeysOf(a)
    ensures Get(a, k) == 0
  {
    if |a| > 0 {
      GetMissing(a[1..], k);
    }
  }

  lemma {:induction false} KeysOfSnoc<K>(ps: seq<(K, int)>, x: (K, int))
    ensures KeysOf(ps + [x]) == KeysOf(ps) + [x.0]
  {
    if |ps| > 0 {
      assert (ps + [x])[1..] == ps[1..] + [x];
      KeysOfSnoc(ps[1..], x);
    }
  }

  /** The dictionary the loop leaves behind after visiting `ps` in order. */
  function FromPairs<K(==,!new)>(ps: seq<(K, int)>): (r: Assoc<K>)
    ensures DistinctKeys(r)
    ensures Total(r) == Total(ps)
    ensures forall k :: Get(r, k) == TotalFor(ps, k)
    ensures forall k :: k in KeysOf(r) <==> k in KeysOf(ps)
  {
    if |ps| == 0 then
      []
    else
      var init := ps[..|ps| - 1];
      var last := ps[|ps| - 1];
      assert ps == init + [last];
      var prev := FromPairs(init);
      TotalSnoc(init, last);
      KeysOfSnoc(init, last);
      forall k ensures TotalFor(ps, k) == TotalFor(init, k) + (if last.0 == k then last.1 else 0) {
        TotalForSnoc(init, last, k);
      }
      Add(prev, last.0, last.1)
  }

  lemma {:induction false} TotalSnoc<K>(ps: seq<(K, int)>, x: (K, int))
    ensures Total(ps + [x]) == Total(ps) + x.1
  {
    if |ps| > 0 {
      assert (ps + [x])[1..] == ps[1..] + [x];
      TotalSnoc(ps[1..], x);
    }
  }

  lemma {:induction false} TotalForSnoc<K>(ps: seq<(K, int)>, x: (K, int), k: K)
    ensures TotalFor(ps + [x], k) == TotalFor(ps, k) + (if x.0 == k then x.1 else 0)
  {
    if |ps| > 0 {
      assert (ps + [x])[1..] == ps[1..] + [x];
      TotalForSnoc(ps[1..], x, k);
    }
  }
}
