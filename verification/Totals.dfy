// Sums over the values of a map, for counting what is in all channels together.
module Totals {
  ghost function Pick<K(!new)>(m: map<K, nat>): (k: K)
    requires |m| > 0
    ensures k in m
  {
    var k :| k in m;
    k
  }

  ghost function Total<K(!new)>(m: map<K, nat>): nat
    decreases |m|
  {
    if |m| == 0 then 0 else m[Pick(m)] + Total(m - {Pick(m)})
  }

  lemma Smaller<K(!new)>(m: map<K, nat>, j: K, k: K)
    requires j in m && k in m
    ensures |m - {k}| == |m| - 1
    ensures m - {j} - {k} == m - {k} - {j}
    ensures j != k ==> k in m - {j} && (m - {j})[k] == m[k]
  {
    assert m.Keys - {k} == (m - {k}).Keys;
  }

  /** The sum may be taken from any key on. */
  lemma {:induction false} TotalFrom<K(!new)>(m: map<K, nat>, k: K)
    requires k in m
    ensures Total(m) == m[k] + Total(m - {k})
    decreases |m|
  {
    var j := Pick(m);
    Smaller(m, j, k);
    Smaller(m, k, j);
    if j != k {
      TotalFrom(m - {j}, k);
      TotalFrom(m - {k}, j);
    }
  }

  lemma SetThenRemove<K(!new)>(m: map<K, nat>, k: K, v: nat)
    ensures k in m[k := v] && m[k := v][k] == v
    ensures m[k := v] - {k} == m - {k}
  {
  }

  lemma TotalOfSet<K(!new)>(m: map<K, nat>, k: K, v: nat)
    ensures Total(m[k := v]) == Total(m - {k}) + v
  {
    SetThenRemove(m, k, v);
    TotalFrom(m[k := v], k);
  }

  lemma TotalSet<K(!new)>(m: map<K, nat>, k: K, v: nat)
    ensures Total(m[k := v]) == Total(m) + v - (if k in m then m[k] else 0)
  {
    TotalOfSet(m, k, v);
    if k in m {
      TotalFrom(m, k);
    } else {
      assert m - {k} == m;
    }
  }

  /** A sum that is not 0 has a part that is not 0. */
  lemma {:induction false} TotalPart<K(!new)>(m: map<K, nat>) returns (k: K)
    requires Total(m) > 0
    ensures k in m && m[k] > 0
    decreases |m|
  {
    k := Pick(m);
    if m[k] == 0 {
      Smaller(m, k, k);
      var j := TotalPart(m - {k});
      assert (m - {k})[j] == m[j];
      k := j;
    }
  }

  // ---------------------------------------------------------------- channels

  function Sizes<K, T>(m: map<K, seq<T>>): map<K, nat> {
    map k | k in m :: |m[k]|
  }

  lemma SizesSet<K(!new), T>(m: map<K, seq<T>>, k: K, q: seq<T>)
    ensures Sizes(m[k := q]) == Sizes(m)[k := |q|]
  {
  }

  lemma SizesPush<K(!new), T>(m: map<K, seq<T>>, k: K, q: seq<T>, x: T)
    requires q == if k in m then m[k] else []
    ensures Total(Sizes(m[k := q + [x]])) == Total(Sizes(m)) + 1
  {
    SizesSet(m, k, q + [x]);
    TotalSet(Sizes(m), k, |q| + 1);
  }

  lemma SizesPop<K(!new), T>(m: map<K, seq<T>>, k: K)
    requires k in m && m[k] != []
    ensures Total(Sizes(m[k := m[k][1..]])) == Total(Sizes(m)) - 1
  {
    SizesSet(m, k, m[k][1..]);
    TotalSet(Sizes(m), k, |m[k]| - 1);
  }
}
