// The bidirectional map as it is built: two ordered trees that index each other.
// A comparator may look at a part of a key only; keys that it does not tell apart
// form a class.
module BiMapTrees {
  import opened E2ap
  import opened BiMap
  import T = AssocTree
  import IdMap
  import Orders

  datatype Trees<K, V> = Trees(left: T.Tree<K, V>, right: T.Tree<V, K>)

  /** The pairs of a bidirectional map, by the classes of their keys. */
  datatype Pairs<P, Q, K, V> = Pairs(left: map<P, (K, V)>, right: map<Q, (V, K)>)

  /** An order whose equality is to be of one class. */
  ghost predicate ByClass<K(!new), P>(cmp: (K, K) -> int, eq: (K, K) -> bool, pk: K -> P) {
    T.Order(cmp, eq) && forall a, b :: eq(a, b) <==> pk(a) == pk(b)
  }

  ghost predicate Table<K(!new), V(!new)>(t: T.Tree<K, V>, cmp: (K, K) -> int, eq: (K, K) -> bool) {
    T.Bst(t, cmp) && T.Distinct(T.Inorder(t), eq)
  }

  /** The tree holds exactly the entries of the map. */
  ghost predicate Holds<P(!new), K(!new), V(!new)>(t: T.Tree<K, V>, m: map<P, (K, V)>, pk: K -> P) {
    Entries(T.Inorder(t), m, pk)
  }

  ghost predicate Entries<P(!new), K(!new), V(!new)>(s: seq<(K, V)>, m: map<P, (K, V)>, pk: K -> P) {
    && (forall e | e in s :: pk(e.0) in m && m[pk(e.0)] == e)
    && (forall p | p in m :: pk(m[p].0) == p && m[p] in s)
  }

  lemma EntriesWith<P(!new), K(!new), V(!new)>(s: seq<(K, V)>, m: map<P, (K, V)>, pk: K -> P, u: seq<(K, V)>, e: (K, V))
    requires Entries(s, m, pk) && pk(e.0) !in m && forall y :: y in u <==> y in s || y == e
    ensures Entries(u, m[pk(e.0) := e], pk)
  {
  }

  lemma EntriesWithout<P(!new), K(!new), V(!new)>(s: seq<(K, V)>, m: map<P, (K, V)>, pk: K -> P, u: seq<(K, V)>, x: P)
    requires Entries(s, m, pk) && forall y :: y in u <==> y in s && pk(y.0) != x
    ensures Entries(u, m - {x}, pk)
  {
  }

  ghost predicate Inverse<P(!new), Q(!new), K, V>(b: Pairs<P, Q, K, V>, pk: K -> P, qk: V -> Q) {
    && (forall p | p in b.left :: qk(b.left[p].1) in b.right && b.right[qk(b.left[p].1)] == (b.left[p].1, b.left[p].0))
    && (forall q | q in b.right ::
          pk(b.right[q].1) in b.left && b.left[pk(b.right[q].1)] == (b.right[q].1, b.right[q].0))
  }

  /** What the two orders look at. */
  datatype Keys<!K, !V, !P, !Q> = Keys(ck: (K, K) -> int, ek: (K, K) -> bool, pk: K -> P,
                                      cv: (V, V) -> int, ev: (V, V) -> bool, qk: V -> Q)

  ghost predicate Represents<P(!new), Q(!new), K(!new), V(!new)>(t: Trees<K, V>, b: Pairs<P, Q, K, V>,
      o: Keys<K, V, P, Q>)
  {
    && ByClass(o.ck, o.ek, o.pk) && ByClass(o.cv, o.ev, o.qk)
    && Table(t.left, o.ck, o.ek) && Table(t.right, o.cv, o.ev)
    && Holds(t.left, b.left, o.pk) && Holds(t.right, b.right, o.qk)
    && Inverse(b, o.pk, o.qk)
  }

  // ---------------------------------------------------------------- one tree

  lemma ScanMember<K(!new), V(!new), P>(s: seq<(K, V)>, cmp: (K, K) -> int, eq: (K, K) -> bool, pk: K -> P, k: K)
    requires T.Distinct(s, eq) && ByClass(cmp, eq, pk)
    ensures T.Scan(s, eq, k).Some? ==> T.Scan(s, eq, k).value in s && pk(T.Scan(s, eq, k).value.0) == pk(k)
    ensures forall e | e in s && pk(e.0) == pk(k) :: T.Scan(s, eq, k) == Some(e)
  {
    if s != [] && !eq(k, s[0].0) {
      assert forall i | 0 <= i < |s[1..]| :: s[1..][i] == s[i + 1];
      ScanMember(s[1..], cmp, eq, pk, k);
      assert forall e :: e in s <==> e == s[0] || e in s[1..];
    } else if s != [] {
      forall e | e in s && pk(e.0) == pk(k) ensures e == s[0] {
        var i :| 0 <= i < |s| && s[i] == e;
      }
    }
  }

  /** A lookup by descent gives the entry of the key's class. */
  lemma DescendHolds<P(!new), K(!new), V(!new)>(t: T.Tree<K, V>, m: map<P, (K, V)>, cmp: (K, K) -> int,
                                                eq: (K, K) -> bool, pk: K -> P, k: K)
    requires ByClass(cmp, eq, pk) && Table(t, cmp, eq) && Holds(t, m, pk)
    ensures T.Descend(t, cmp, k) == if pk(k) in m then Some(m[pk(k)]) else None
  {
    T.IndexAgreesWithScan(t, cmp, eq, k);
    ScanMember(T.Inorder(t), cmp, eq, pk, k);
    if pk(k) in m {
      assert m[pk(k)] in T.Inorder(t);
    }
  }

  lemma InsertTable<P(!new), K(!new), V(!new)>(t: T.Tree<K, V>, m: map<P, (K, V)>, cmp: (K, K) -> int,
                                               eq: (K, K) -> bool, pk: K -> P, k: K, v: V)
    requires ByClass(cmp, eq, pk) && Table(t, cmp, eq) && Holds(t, m, pk) && pk(k) !in m
    ensures Table(T.Insert(t, cmp, k, v), cmp, eq)
  {
    forall e | e in T.Inorder(t) ensures !eq(k, e.0) {
      assert pk(e.0) in m;
    }
    T.ScanNone(T.Inorder(t), eq, k);
    T.MakesKeeps(t, T.Put(k, v), cmp, eq, T.Insert(t, cmp, k, v));
  }

  lemma InsertHolds<P(!new), K(!new), V(!new)>(t: T.Tree<K, V>, m: map<P, (K, V)>, cmp: (K, K) -> int,
                                               eq: (K, K) -> bool, pk: K -> P, k: K, v: V)
    requires ByClass(cmp, eq, pk) && Table(t, cmp, eq) && Holds(t, m, pk) && pk(k) !in m
    ensures Table(T.Insert(t, cmp, k, v), cmp, eq) && Holds(T.Insert(t, cmp, k, v), m[pk(k) := (k, v)], pk)
  {
    InsertTable(t, m, cmp, eq, pk, k, v);
    T.InsertSplices(t, cmp, k, v);
    var s, i := T.Inorder(t), T.InsertAt(t, cmp, k);
    SpliceMembers(s, i, (k, v));
    EntriesWith(s, m, pk, T.Splice(s, i, (k, v)), (k, v));
  }

  lemma SpliceMembers<X>(s: seq<X>, i: nat, x: X)
    requires i <= |s|
    ensures forall y :: y in T.Splice(s, i, x) <==> y in s || y == x
  {
    assert s == s[..i] + s[i..];
  }

  lemma ExtractHolds<P(!new), K(!new), V(!new)>(t: T.Tree<K, V>, m: map<P, (K, V)>, cmp: (K, K) -> int,
                                                eq: (K, K) -> bool, pk: K -> P, k: K)
    requires ByClass(cmp, eq, pk) && Table(t, cmp, eq) && Holds(t, m, pk) && pk(k) in m
    ensures T.Descend(t, cmp, k) == Some(m[pk(k)])
    ensures Table(T.Extract(t, cmp, k), cmp, eq) && Holds(T.Extract(t, cmp, k), m - {pk(k)}, pk)
  {
    DescendHolds(t, m, cmp, eq, pk, k);
    var i := T.ExtractRemoves(t, cmp, k);
    T.MakesKeeps(t, T.Take(k), cmp, eq, T.Extract(t, cmp, k));
    WithoutMembers(T.Inorder(t), i, cmp, eq, pk);
    EntriesWithout(T.Inorder(t), m, pk, T.Inorder(t)[..i] + T.Inorder(t)[i + 1..], pk(k));
  }

  lemma WithoutMembers<K(!new), V, P>(s: seq<(K, V)>, i: nat, cmp: (K, K) -> int, eq: (K, K) -> bool, pk: K -> P)
    requires i < |s| && T.Distinct(s, eq) && ByClass(cmp, eq, pk)
    ensures forall e :: e in s[..i] + s[i + 1..] <==> e in s && pk(e.0) != pk(s[i].0)
  {
    assert s == s[..i] + [s[i]] + s[i + 1..];
    forall e | e in s[..i] + s[i + 1..] ensures pk(e.0) != pk(s[i].0) {
      if e in s[..i] {
        var j :| 0 <= j < i && s[j] == e;
        assert !eq(s[j].0, s[i].0);
      } else {
        var j :| 0 <= j < |s| - i - 1 && s[i + 1..][j] == e;
        assert s[i + 1 + j] == e && !eq(s[i].0, s[i + 1 + j].0);
      }
    }
  }

  // ---------------------------------------------------------------- the operations

  function Insert<K, V>(t: Trees<K, V>, ck: (K, K) -> int, cv: (V, V) -> int, k: K, v: V): Trees<K, V> {
    Trees(T.Insert(t.left, ck, k, v), T.Insert(t.right, cv, v, k))
  }

  /** bi_map_extract_right: None stands for an assertion that fails. */
  function ExtractRight<K, V>(t: Trees<K, V>, ck: (K, K) -> int, cv: (V, V) -> int, v: V): Option<(K, Trees<K, V>)> {
    match T.Descend(t.right, cv, v)
    case None => None
    case Some(r) =>
      match T.Descend(t.left, ck, r.1)
      case None => None
      case Some(l) =>
        if cv(v, l.1) != 0 then None
        else Some((r.1, Trees(T.Extract(t.left, ck, r.1), T.Extract(t.right, cv, v))))
  }

  /** bi_map_extract_left compares the extracted value with the value that the other
      tree gives back, which is a key: by the comparator of the left tree, applied
      to the bytes of the value. `cast` reads them as a key. */
  function ExtractLeft<K, V>(t: Trees<K, V>, ck: (K, K) -> int, cv: (V, V) -> int, cast: V -> K,
                             k: K): Option<(V, Trees<K, V>)>
  {
    match T.Descend(t.left, ck, k)
    case None => None
    case Some(l) =>
      match T.Descend(t.right, cv, l.1)
      case None => None
      case Some(r) =>
        if ck(cast(l.1), r.1) != 0 then None
        else Some((l.1, Trees(T.Extract(t.left, ck, k), T.Extract(t.right, cv, l.1))))
  }

  function WithPair<P, Q, K, V>(b: Pairs<P, Q, K, V>, o: Keys<K, V, P, Q>, k: K, v: V): Pairs<P, Q, K, V> {
    Pairs(b.left[o.pk(k) := (k, v)], b.right[o.qk(v) := (v, k)])
  }

  function WithoutRight<P, Q, K, V>(b: Pairs<P, Q, K, V>, o: Keys<K, V, P, Q>, q: Q): Pairs<P, Q, K, V>
    requires q in b.right
  {
    Pairs(b.left - {o.pk(b.right[q].1)}, b.right - {q})
  }

  /** With both classes fresh the two trees stay inverse to each other. */
  lemma InsertRepresents<P(!new), Q(!new), K(!new), V(!new)>(t: Trees<K, V>, b: Pairs<P, Q, K, V>,
      o: Keys<K, V, P, Q>, k: K, v: V)
    requires Represents(t, b, o) && o.pk(k) !in b.left && o.qk(v) !in b.right
    ensures Represents(Insert(t, o.ck, o.cv, k, v), WithPair(b, o, k, v), o)
  {
    InsertHolds(t.left, b.left, o.ck, o.ek, o.pk, k, v);
    InsertHolds(t.right, b.right, o.cv, o.ev, o.qk, v, k);
    InsertInverse(t, b, o, k, v);
  }

  lemma InsertInverse<P(!new), Q(!new), K(!new), V(!new)>(t: Trees<K, V>, b: Pairs<P, Q, K, V>, o: Keys<K, V, P, Q>,
                                                          k: K, v: V)
    requires Represents(t, b, o) && o.pk(k) !in b.left && o.qk(v) !in b.right
    ensures Inverse(WithPair(b, o, k, v), o.pk, o.qk)
  {
    var c := WithPair(b, o, k, v);
    forall p | p in c.left
      ensures o.qk(c.left[p].1) in c.right && c.right[o.qk(c.left[p].1)] == (c.left[p].1, c.left[p].0)
    {
      if p != o.pk(k) {
        assert o.qk(b.left[p].1) in b.right;
      }
    }
    forall q | q in c.right
      ensures o.pk(c.right[q].1) in c.left && c.left[o.pk(c.right[q].1)] == (c.right[q].1, c.right[q].0)
    {
      if q != o.qk(v) {
        assert o.pk(b.right[q].1) in b.left;
      }
    }
  }

  /** Extraction by the right key succeeds exactly if its class is present, returns
      the partner, and removes both sides. */
  lemma ExtractRightRepresents<P(!new), Q(!new), K(!new), V(!new)>(t: Trees<K, V>, b: Pairs<P, Q, K, V>,
      o: Keys<K, V, P, Q>, v: V)
    requires Represents(t, b, o)
    ensures var r := ExtractRight(t, o.ck, o.cv, v);
            && (r.Some? <==> o.qk(v) in b.right)
            && (r.Some? ==> r.value.0 == b.right[o.qk(v)].1 && Represents(r.value.1, WithoutRight(b, o, o.qk(v)), o))
  {
    DescendHolds(t.right, b.right, o.cv, o.ev, o.qk, v);
    if o.qk(v) in b.right {
      ExtractBoth(t, b, o, v);
      ExtractInverse(t, b, o, o.qk(v));
    }
  }

  lemma ExtractBoth<P(!new), Q(!new), K(!new), V(!new)>(t: Trees<K, V>, b: Pairs<P, Q, K, V>, o: Keys<K, V, P, Q>, v: V)
    requires Represents(t, b, o) && o.qk(v) in b.right
    ensures var k := b.right[o.qk(v)].1;
            var r := ExtractRight(t, o.ck, o.cv, v);
            && r.Some? && r.value.0 == k
            && Table(r.value.1.left, o.ck, o.ek) && Table(r.value.1.right, o.cv, o.ev)
            && Holds(r.value.1.left, b.left - {o.pk(k)}, o.pk) && Holds(r.value.1.right, b.right - {o.qk(v)}, o.qk)
  {
    var k := b.right[o.qk(v)].1;
    ExtractHolds(t.right, b.right, o.cv, o.ev, o.qk, v);
    ExtractHolds(t.left, b.left, o.ck, o.ek, o.pk, k);
    assert o.ev(v, b.left[o.pk(k)].1);
  }

  lemma ExtractInverse<P(!new), Q(!new), K(!new), V(!new)>(t: Trees<K, V>, b: Pairs<P, Q, K, V>, o: Keys<K, V, P, Q>,
                                                           q: Q)
    requires Represents(t, b, o) && q in b.right
    ensures Inverse(WithoutRight(b, o, q), o.pk, o.qk)
  {
    var c := WithoutRight(b, o, q);
    var x := o.pk(b.right[q].1);
    forall p | p in c.left
      ensures o.qk(c.left[p].1) in c.right && c.right[o.qk(c.left[p].1)] == (c.left[p].1, c.left[p].0)
    {
      assert o.qk(b.left[p].1) in b.right && o.pk(b.left[p].0) == p;
    }
    forall r | r in c.right
      ensures o.pk(c.right[r].1) in c.left && c.left[o.pk(c.right[r].1)] == (c.right[r].1, c.right[r].0)
    {
      assert o.pk(b.right[r].1) in b.left && o.qk(b.right[r].0) == r && o.qk(b.right[q].0) == q;
    }
  }

  /** Extraction by the left key passes its own check exactly when the bytes of the
      value happen to read as a key of the same class. */
  lemma ExtractLeftIff<P(!new), Q(!new), K(!new), V(!new)>(t: Trees<K, V>, b: Pairs<P, Q, K, V>, o: Keys<K, V, P, Q>,
                                                           cast: V -> K, k: K)
    requires Represents(t, b, o)
    ensures ExtractLeft(t, o.ck, o.cv, cast, k).Some? <==> o.pk(k) in b.left && o.pk(cast(b.left[o.pk(k)].1)) == o.pk(k)
  {
    DescendHolds(t.left, b.left, o.ck, o.ek, o.pk, k);
    if o.pk(k) in b.left {
      var l := b.left[o.pk(k)];
      DescendHolds(t.right, b.right, o.cv, o.ev, o.qk, l.1);
      assert b.right[o.qk(l.1)] == (l.1, l.0) && o.pk(l.0) == o.pk(k);
      assert o.ck(cast(l.1), l.0) == 0 <==> o.ek(cast(l.1), l.0);
    }
  }

  // ---------------------------------------------------------------- the id map

  /** The left key of the id map is compared by its request id alone. */
  function CmpNodeReq(a: IdMap.NodeReq, b: IdMap.NodeReq): int {
    Orders.CmpUp(a.req, b.req)
  }

  function EqNodeReq(a: IdMap.NodeReq, b: IdMap.NodeReq): bool {
    a.req == b.req
  }

  function ReqOf(n: IdMap.NodeReq): U16 {
    n.req
  }

  function Itself(x: XappRicId): XappRicId {
    x
  }

  const IDS := Keys(CmpNodeReq, EqNodeReq, ReqOf, Orders.CmpXappRicId, Orders.EqXappRicId, Itself)

  lemma IdsByClass()
    ensures ByClass(IDS.ck, IDS.ek, IDS.pk) && ByClass(IDS.cv, IDS.ev, IDS.qk)
  {
    forall a, b, c ensures T.Chain(CmpNodeReq, a, b, c) {}
    Orders.XappRicIdOrder();
  }

  /** The map that the protocol model uses. */
  function AsIds(b: Pairs<U16, XappRicId, IdMap.NodeReq, XappRicId>): IdMap.Ids {
    IdMap.Ids(map i | i in b.left :: IdMap.Bind(b.left[i].0.node, b.left[i].1), map x | x in b.right :: b.right[x].1)
  }

  lemma AddAgrees(b: Pairs<U16, XappRicId, IdMap.NodeReq, XappRicId>, n: IdMap.NodeReq, x: XappRicId)
    ensures AsIds(WithPair(b, IDS, n, x)) == IdMap.Add(AsIds(b), n, x)
  {
    var c, d := AsIds(WithPair(b, IDS, n, x)), IdMap.Add(AsIds(b), n, x);
    assert c.left == d.left;
    assert c.right == d.right;
  }

  lemma LookupsAgree(t: Trees<IdMap.NodeReq, XappRicId>, b: Pairs<U16, XappRicId, IdMap.NodeReq, XappRicId>,
                     n: IdMap.NodeReq, x: XappRicId)
    requires Represents(t, b, IDS)
    ensures T.Descend(t.left, CmpNodeReq, n) == if n.req in b.left then Some(b.left[n.req]) else None
    ensures T.Descend(t.right, Orders.CmpXappRicId, x) == if x in b.right then Some(b.right[x]) else None
  {
    DescendHolds(t.left, b.left, IDS.ck, IDS.ek, IDS.pk, n);
    DescendHolds(t.right, b.right, IDS.cv, IDS.ev, IDS.qk, x);
  }

  /** The id map on its two trees: the lookups in both directions, and the insertion
      of a new pair, are those of the map that the protocol model uses. */
  lemma IdMapAgrees(t: Trees<IdMap.NodeReq, XappRicId>, b: Pairs<U16, XappRicId, IdMap.NodeReq, XappRicId>,
                    n: IdMap.NodeReq, x: XappRicId)
    requires Represents(t, b, IDS)
    ensures T.Descend(t.left, CmpNodeReq, n).Some? <==> n.req in AsIds(b).left
    ensures n.req in AsIds(b).left ==> T.Descend(t.left, CmpNodeReq, n).value.1 == AsIds(b).left[n.req].who
    ensures T.Descend(t.right, Orders.CmpXappRicId, x).Some? <==> x in AsIds(b).right
    ensures x in AsIds(b).right ==> T.Descend(t.right, Orders.CmpXappRicId, x).value.1 == AsIds(b).right[x]
    ensures n.req !in AsIds(b).left && x !in AsIds(b).right ==>
              && Represents(Insert(t, IDS.ck, IDS.cv, n, x), WithPair(b, IDS, n, x), IDS)
              && AsIds(WithPair(b, IDS, n, x)) == IdMap.Add(AsIds(b), n, x)
  {
    LookupsAgree(t, b, n, x);
    AddAgrees(b, n, x);
    if n.req !in AsIds(b).left && x !in AsIds(b).right {
      InsertRepresents(t, b, IDS, n, x);
    }
  }

  // ---------------------------------------------------------------- the xApp's table

  predicate EqKind(a: PendEvent, b: PendEvent) {
    a.kind == b.kind
  }

  function KindOf(p: PendEvent): ReqKind {
    p.kind
  }

  /** The pending table of an xApp is such a map too, with one entry for each kind. */
  lemma KindsByClass()
    ensures ByClass(Orders.CmpPendingXapp, EqKind, KindOf)
  {
    forall a, b, c ensures T.Chain(Orders.CmpPendingXapp, a, b, c) {}
  }
}
