// The ordered tree behind every map: descent by the comparator, against the
// linear scan with the paired equality that the find functions use.
module AssocTree {
  import opened E2ap

  datatype Tree<K, V> = Leaf | Node(left: Tree<K, V>, key: K, val: V, right: Tree<K, V>)

  ghost predicate Chain<K>(cmp: (K, K) -> int, a: K, b: K, c: K) {
    cmp(a, b) >= 0 && cmp(b, c) >= 0 ==> cmp(a, c) >= 0
  }

  /** A comparator (1: before, 0: equal, -1: after) that is a total order whose
      zero case is exactly the paired equality. */
  ghost predicate Order<K(!new)>(cmp: (K, K) -> int, eq: (K, K) -> bool) {
    && (forall a, b :: cmp(a, b) == 1 || cmp(a, b) == 0 || cmp(a, b) == -1)
    && (forall a, b :: cmp(a, b) == 0 <==> eq(a, b))
    && (forall a, b :: cmp(a, b) == 1 <==> cmp(b, a) == -1)
    && (forall a, b, c :: Chain(cmp, a, b, c))
  }

  function Inorder<K, V>(t: Tree<K, V>): seq<(K, V)> {
    match t
    case Leaf => []
    case Node(l, k, v, r) => Inorder(l) + [(k, v)] + Inorder(r)
  }

  ghost predicate Sorted<K, V>(s: seq<(K, V)>, cmp: (K, K) -> int) {
    forall i, j | 0 <= i < j < |s| :: cmp(s[i].0, s[j].0) >= 0
  }

  ghost predicate Bst<K, V>(t: Tree<K, V>, cmp: (K, K) -> int) {
    Sorted(Inorder(t), cmp)
  }

  ghost predicate Distinct<K, V>(s: seq<(K, V)>, eq: (K, K) -> bool) {
    forall i, j | 0 <= i < j < |s| :: !eq(s[i].0, s[j].0)
  }

  // ---------------------------------------------------------------- lookup

  /** find_rb_tree. */
  function Descend<K, V>(t: Tree<K, V>, cmp: (K, K) -> int, k: K): Option<(K, V)> {
    match t
    case Leaf => None
    case Node(l, key, val, r) =>
      if cmp(k, key) == 1 then Descend(l, cmp, k)
      else if cmp(k, key) == -1 then Descend(r, cmp, k)
      else Some((key, val))
  }

  /** find_if: the first entry in order whose key is equal. */
  function Scan<K, V>(s: seq<(K, V)>, eq: (K, K) -> bool, k: K): Option<(K, V)> {
    if s == [] then None
    else if eq(k, s[0].0) then Some(s[0])
    else Scan(s[1..], eq, k)
  }

  lemma ScanNone<K, V>(s: seq<(K, V)>, eq: (K, K) -> bool, k: K)
    ensures Scan(s, eq, k) == None <==> forall e | e in s :: !eq(k, e.0)
  {
    if s != [] {
      ScanNone(s[1..], eq, k);
      assert forall e :: e in s <==> e == s[0] || e in s[1..];
    }
  }

  /** The scan gives the first entry whose key is equal. */
  lemma {:induction false} ScanFirst<K, V>(s: seq<(K, V)>, eq: (K, K) -> bool, k: K) returns (i: nat)
    requires Scan(s, eq, k).Some?
    ensures i < |s| && Scan(s, eq, k) == Some(s[i]) && eq(k, s[i].0)
    ensures forall j | 0 <= j < i :: !eq(k, s[j].0)
  {
    if eq(k, s[0].0) {
      i := 0;
    } else {
      var n := ScanFirst(s[1..], eq, k);
      i := n + 1;
      assert forall j | 1 <= j < i :: s[j] == s[1..][j - 1];
    }
  }

  lemma ScanAppend<K, V>(s: seq<(K, V)>, t: seq<(K, V)>, eq: (K, K) -> bool, k: K)
    ensures Scan(s + t, eq, k) == if Scan(s, eq, k).Some? then Scan(s, eq, k) else Scan(t, eq, k)
  {
    if s == [] {
      assert s + t == t;
    } else {
      assert (s + t)[1..] == s[1..] + t;
      ScanAppend(s[1..], t, eq, k);
    }
  }

  lemma DistinctParts<K, V>(l: seq<(K, V)>, m: (K, V), r: seq<(K, V)>, eq: (K, K) -> bool)
    requires Distinct(l + [m] + r, eq)
    ensures Distinct(l, eq) && Distinct(r, eq)
    ensures forall e | e in l :: !eq(e.0, m.0)
    ensures forall e | e in r :: !eq(m.0, e.0)
  {
    var s := l + [m] + r;
    assert forall i | 0 <= i < |l| :: s[i] == l[i];
    assert forall i | 0 <= i < |r| :: s[|l| + 1 + i] == r[i];
    assert s[|l|] == m;
  }

  lemma SortedParts<K, V>(l: seq<(K, V)>, m: (K, V), r: seq<(K, V)>, cmp: (K, K) -> int)
    requires Sorted(l + [m] + r, cmp)
    ensures Sorted(l, cmp) && Sorted(r, cmp)
    ensures forall e | e in l :: cmp(e.0, m.0) >= 0
    ensures forall e | e in r :: cmp(m.0, e.0) >= 0
  {
    var s := l + [m] + r;
    assert forall i | 0 <= i < |l| :: s[i] == l[i];
    assert forall i | 0 <= i < |r| :: s[|l| + 1 + i] == r[i];
    assert s[|l|] == m;
  }

  /** What stands on the other side of a node cannot be equal to the key. */
  lemma NotBeyond<K(!new)>(cmp: (K, K) -> int, eq: (K, K) -> bool, k: K, m: K, e: K)
    requires Order(cmp, eq)
    requires (cmp(k, m) == 1 && cmp(m, e) >= 0) || (cmp(k, m) == -1 && cmp(e, m) >= 0)
    ensures !eq(k, e)
  {
    assert Chain(cmp, m, e, k) && Chain(cmp, k, e, m);
  }

  /** The ordered descent and the linear scan select the same entry. */
  lemma {:induction false} IndexAgreesWithScan<K(!new), V(!new)>(t: Tree<K, V>, cmp: (K, K) -> int,
      eq: (K, K) -> bool, k: K)
    requires Order(cmp, eq) && Bst(t, cmp) && Distinct(Inorder(t), eq)
    ensures Descend(t, cmp, k) == Scan(Inorder(t), eq, k)
  {
    if t.Node? {
      var l, m, r := Inorder(t.left), (t.key, t.val), Inorder(t.right);
      DistinctParts(l, m, r, eq);
      SortedParts(l, m, r, cmp);
      IndexAgreesWithScan(t.left, cmp, eq, k);
      IndexAgreesWithScan(t.right, cmp, eq, k);
      ScanAppend(l + [m], r, eq, k);
      ScanAppend(l, [m], eq, k);
      if cmp(k, t.key) == 1 {
        forall e | e in r ensures !eq(k, e.0) {
          NotBeyond(cmp, eq, k, t.key, e.0);
        }
        ScanNone(r, eq, k);
      } else {
        forall e | e in l ensures !eq(k, e.0) {
          NotEarlier(cmp, eq, k, t.key, e.0);
        }
        ScanNone(l, eq, k);
      }
    }
  }

  lemma NotEarlier<K(!new)>(cmp: (K, K) -> int, eq: (K, K) -> bool, k: K, m: K, e: K)
    requires Order(cmp, eq) && cmp(k, m) != 1 && cmp(e, m) >= 0 && !eq(e, m)
    ensures !eq(k, e)
  {
    assert Chain(cmp, m, k, e);
  }

  // ---------------------------------------------------------------- insert, rotate, extract

  /** The leaf position that the insertion loop finds. */
  function Insert<K, V>(t: Tree<K, V>, cmp: (K, K) -> int, k: K, v: V): Tree<K, V> {
    match t
    case Leaf => Node(Leaf, k, v, Leaf)
    case Node(l, key, val, r) =>
      if cmp(k, key) == 1 then t.(left := Insert(l, cmp, k, v))
      else t.(right := Insert(r, cmp, k, v))
  }

  /** `k` may stand at position `i`. */
  ghost predicate Place<K, V>(s: seq<(K, V)>, cmp: (K, K) -> int, k: K, i: nat) {
    && i <= |s|
    && (forall j | 0 <= j < i :: cmp(s[j].0, k) >= 0)
    && (forall j | i <= j < |s| :: cmp(k, s[j].0) >= 0)
  }

  lemma PlaceLeft<K(!new), V>(l: seq<(K, V)>, m: (K, V), r: seq<(K, V)>, cmp: (K, K) -> int, eq: (K, K) -> bool, k: K,
                              i: nat)
    requires Order(cmp, eq) && Sorted(l + [m] + r, cmp) && cmp(k, m.0) == 1 && Place(l, cmp, k, i)
    ensures Place(l + [m] + r, cmp, k, i)
  {
    SortedParts(l, m, r, cmp);
    var s := l + [m] + r;
    forall j | i <= j < |s| ensures cmp(k, s[j].0) >= 0 {
      if j > |l| {
        assert s[j] == r[j - |l| - 1];
        assert Chain(cmp, k, m.0, s[j].0);
      }
    }
  }

  lemma PlaceRight<K(!new), V>(l: seq<(K, V)>, m: (K, V), r: seq<(K, V)>, cmp: (K, K) -> int, eq: (K, K) -> bool,
                               k: K, i: nat)
    requires Order(cmp, eq) && Sorted(l + [m] + r, cmp) && cmp(k, m.0) != 1 && Place(r, cmp, k, i)
    ensures Place(l + [m] + r, cmp, k, |l| + 1 + i)
  {
    SortedParts(l, m, r, cmp);
    var s := l + [m] + r;
    forall j | 0 <= j < |l| + 1 + i ensures cmp(s[j].0, k) >= 0 {
      if j < |l| {
        assert s[j] == l[j];
        assert Chain(cmp, s[j].0, m.0, k);
      } else if j > |l| {
        assert s[j] == r[j - |l| - 1];
      }
    }
    assert forall j | |l| + 1 + i <= j < |s| :: s[j] == r[j - |l| - 1];
  }

  function Splice<T>(s: seq<T>, i: nat, x: T): seq<T>
    requires i <= |s|
  {
    s[..i] + [x] + s[i..]
  }

  lemma SpliceLeft<T>(l: seq<T>, m: T, r: seq<T>, i: nat, x: T)
    requires i <= |l|
    ensures Splice(l, i, x) + [m] + r == Splice(l + [m] + r, i, x)
  {
    assert (l + [m] + r)[..i] == l[..i];
    assert (l + [m] + r)[i..] == l[i..] + [m] + r;
  }

  lemma SpliceRight<T>(l: seq<T>, m: T, r: seq<T>, i: nat, x: T)
    requires i <= |r|
    ensures l + [m] + Splice(r, i, x) == Splice(l + [m] + r, |l| + 1 + i, x)
  {
    assert (l + [m] + r)[..|l| + 1 + i] == l + [m] + r[..i];
    assert (l + [m] + r)[|l| + 1 + i..] == r[i..];
  }

  /** Position of the new entry in the order of the tree. */
  function InsertAt<K, V>(t: Tree<K, V>, cmp: (K, K) -> int, k: K): (i: nat)
    ensures i <= |Inorder(t)|
  {
    match t
    case Leaf => 0
    case Node(l, key, _, r) =>
      if cmp(k, key) == 1 then InsertAt(l, cmp, k) else |Inorder(l)| + 1 + InsertAt(r, cmp, k)
  }

  /** The new entry goes in there, and the others keep their order. */
  lemma {:induction false} InsertSplices<K, V>(t: Tree<K, V>, cmp: (K, K) -> int, k: K, v: V)
    ensures Inorder(Insert(t, cmp, k, v)) == Splice(Inorder(t), InsertAt(t, cmp, k), (k, v))
  {
    if t.Node? {
      var l, m, r := Inorder(t.left), (t.key, t.val), Inorder(t.right);
      if cmp(k, t.key) == 1 {
        InsertSplices(t.left, cmp, k, v);
        SpliceLeft(l, m, r, InsertAt(t.left, cmp, k), (k, v));
      } else {
        InsertSplices(t.right, cmp, k, v);
        SpliceRight(l, m, r, InsertAt(t.right, cmp, k), (k, v));
      }
    }
  }

  lemma {:induction false} InsertPlace<K(!new), V>(t: Tree<K, V>, cmp: (K, K) -> int, eq: (K, K) -> bool, k: K)
    requires Order(cmp, eq) && Bst(t, cmp)
    ensures Place(Inorder(t), cmp, k, InsertAt(t, cmp, k))
  {
    if t.Node? {
      var l, m, r := Inorder(t.left), (t.key, t.val), Inorder(t.right);
      SortedParts(l, m, r, cmp);
      if cmp(k, t.key) == 1 {
        InsertPlace(t.left, cmp, eq, k);
        PlaceLeft(l, m, r, cmp, eq, k, InsertAt(t.left, cmp, k));
      } else {
        InsertPlace(t.right, cmp, eq, k);
        PlaceRight(l, m, r, cmp, eq, k, InsertAt(t.right, cmp, k));
      }
    }
  }

  lemma InsertKeepsBst<K(!new), V>(t: Tree<K, V>, cmp: (K, K) -> int, eq: (K, K) -> bool, k: K, v: V)
    requires Order(cmp, eq) && Bst(t, cmp)
    ensures Bst(Insert(t, cmp, k, v), cmp)
  {
    InsertSplices(t, cmp, k, v);
    InsertPlace(t, cmp, eq, k);
  }

  /** left_rotate (right == false) and right_rotate at the node that `path` leads to. */
  function Rotate<K, V>(t: Tree<K, V>, path: seq<bool>, right: bool): Tree<K, V> {
    match t
    case Leaf => t
    case Node(l, k, v, r) =>
      if path != [] then
        if path[0] then t.(right := Rotate(r, path[1..], right)) else t.(left := Rotate(l, path[1..], right))
      else if right then
        (match l
         case Leaf => t
         case Node(ll, lk, lv, lr) => Node(ll, lk, lv, Node(lr, k, v, r)))
      else
        (match r
         case Leaf => t
         case Node(rl, rk, rv, rr) => Node(Node(l, k, v, rl), rk, rv, rr))
  }

  /** Rebalancing never changes what an iteration or a lookup sees. */
  lemma {:induction false} RotateKeepsOrder<K, V>(t: Tree<K, V>, path: seq<bool>, right: bool)
    ensures Inorder(Rotate(t, path, right)) == Inorder(t)
  {
    if t.Node? {
      if path != [] {
        if path[0] {
          RotateKeepsOrder(t.right, path[1..], right);
        } else {
          RotateKeepsOrder(t.left, path[1..], right);
        }
      } else if right && t.left.Node? {
        assert Inorder(t) == Inorder(t.left.left) + [(t.left.key, t.left.val)]
               + (Inorder(t.left.right) + [(t.key, t.val)] + Inorder(t.right));
      } else if !right && t.right.Node? {
        assert Inorder(t) == (Inorder(t.left) + [(t.key, t.val)] + Inorder(t.right.left))
               + [(t.right.key, t.right.val)] + Inorder(t.right.right);
      }
    }
  }

  /** The subtree that a path leads to. */
  function At<K, V>(t: Tree<K, V>, path: seq<bool>): Tree<K, V> {
    if t == Leaf || path == [] then t else At(if path[0] then t.right else t.left, path[1..])
  }

  /** The rotations raise a child into the place of its parent. */
  lemma {:induction false} RotateRaises<K, V>(t: Tree<K, V>, path: seq<bool>)
    ensures At(t, path).Node? && At(t, path).right.Node? ==>
              var x := At(t, path);
              var y := x.right;
              At(Rotate(t, path, false), path) == Node(Node(x.left, x.key, x.val, y.left), y.key, y.val, y.right)
    ensures At(t, path).Node? && At(t, path).left.Node? ==>
              var x := At(t, path);
              var y := x.left;
              At(Rotate(t, path, true), path) == Node(y.left, y.key, y.val, Node(y.right, x.key, x.val, x.right))
  {
    if t.Node? && path != [] {
      RotateRaises(if path[0] then t.right else t.left, path[1..]);
    }
  }

  /** The opposite rotation at the same place undoes a rotation. */
  lemma {:induction false} RotateBack<K, V>(t: Tree<K, V>, path: seq<bool>, right: bool)
    requires At(t, path).Node? && (if right then At(t, path).left else At(t, path).right).Node?
    ensures Rotate(Rotate(t, path, right), path, !right) == t
  {
    if path != [] {
      RotateBack(if path[0] then t.right else t.left, path[1..], right);
    }
  }

  function Minimum<K, V>(t: Tree<K, V>): (K, V)
    requires t.Node?
  {
    if t.left == Leaf then (t.key, t.val) else Minimum(t.left)
  }

  /** The tree without its leftmost node, whose right child takes its place. */
  function DropMinimum<K, V>(t: Tree<K, V>): Tree<K, V>
    requires t.Node?
  {
    if t.left == Leaf then t.right else t.(left := DropMinimum(t.left))
  }

  /** assoc_rb_tree_extract before the recolouring. */
  function Extract<K, V>(t: Tree<K, V>, cmp: (K, K) -> int, k: K): Tree<K, V>
    requires Descend(t, cmp, k).Some?
  {
    if cmp(k, t.key) == 1 then t.(left := Extract(t.left, cmp, k))
    else if cmp(k, t.key) == -1 then t.(right := Extract(t.right, cmp, k))
    else if t.left == Leaf then t.right
    else if t.right == Leaf then t.left
    else
      var m := Minimum(t.right);
      Node(t.left, m.0, m.1, DropMinimum(t.right))
  }

  lemma {:induction false} MinimumFirst<K, V>(t: Tree<K, V>)
    requires t.Node?
    ensures Inorder(t) == [Minimum(t)] + Inorder(DropMinimum(t))
  {
    if t.left != Leaf {
      MinimumFirst(t.left);
    }
  }

  /** Extraction removes exactly the entry that the descent finds. */
  lemma {:induction false} ExtractRemoves<K, V>(t: Tree<K, V>, cmp: (K, K) -> int, k: K) returns (i: nat)
    requires Descend(t, cmp, k).Some?
    ensures i < |Inorder(t)| && Inorder(t)[i] == Descend(t, cmp, k).value
    ensures Inorder(Extract(t, cmp, k)) == Inorder(t)[..i] + Inorder(t)[i + 1..]
  {
    var l, m, r := Inorder(t.left), (t.key, t.val), Inorder(t.right);
    if cmp(k, t.key) == 1 {
      i := ExtractRemoves(t.left, cmp, k);
      assert Inorder(t)[..i] == l[..i] && Inorder(t)[i + 1..] == l[i + 1..] + [m] + r;
    } else if cmp(k, t.key) == -1 {
      var j := ExtractRemoves(t.right, cmp, k);
      i := |l| + 1 + j;
      assert Inorder(t)[..i] == l + [m] + r[..j] && Inorder(t)[i + 1..] == r[j + 1..];
    } else {
      i := |l|;
      assert Inorder(t)[..i] == l && Inorder(t)[i + 1..] == r;
      if t.right.Node? {
        MinimumFirst(t.right);
      }
    }
  }

  lemma ExtractKeepsBst<K, V>(t: Tree<K, V>, cmp: (K, K) -> int, k: K)
    requires Bst(t, cmp) && Descend(t, cmp, k).Some?
    ensures Bst(Extract(t, cmp, k), cmp)
  {
    var i := ExtractRemoves(t, cmp, k);
  }

  // ---------------------------------------------------------------- tables built by these operations

  datatype Op<K, V> = Put(k: K, v: V) | Take(k: K) | Turn(path: seq<bool>, right: bool)

  ghost predicate Makes<K, V>(s: Tree<K, V>, op: Op<K, V>, cmp: (K, K) -> int, eq: (K, K) -> bool, t: Tree<K, V>) {
    match op
    case Put(k, v) => Scan(Inorder(s), eq, k) == None && t == Insert(s, cmp, k, v)
    case Take(k) => Descend(s, cmp, k).Some? && t == Extract(s, cmp, k)
    case Turn(path, right) => t == Rotate(s, path, right)
  }

  lemma MakesKeeps<K(!new), V(!new)>(s: Tree<K, V>, op: Op<K, V>, cmp: (K, K) -> int, eq: (K, K) -> bool, t: Tree<K, V>)
    requires Order(cmp, eq) && Bst(s, cmp) && Distinct(Inorder(s), eq) && Makes(s, op, cmp, eq, t)
    ensures Bst(t, cmp) && Distinct(Inorder(t), eq)
  {
    match op {
      case Put(k, v) =>
        InsertKeepsBst(s, cmp, eq, k, v);
        InsertSplices(s, cmp, k, v);
        ScanNone(Inorder(s), eq, k);
        DistinctSplice(Inorder(s), InsertAt(s, cmp, k), (k, v), cmp, eq);
      case Take(k) =>
        ExtractKeepsBst(s, cmp, k);
        var i := ExtractRemoves(s, cmp, k);
      case Turn(path, right) =>
        RotateKeepsOrder(s, path, right);
    }
  }

  lemma DistinctSplice<K(!new), V>(s: seq<(K, V)>, i: nat, x: (K, V), cmp: (K, K) -> int, eq: (K, K) -> bool)
    requires Order(cmp, eq) && i <= |s| && Distinct(s, eq) && forall e | e in s :: !eq(x.0, e.0)
    ensures Distinct(Splice(s, i, x), eq)
  {
    var t := Splice(s, i, x);
    forall a, b | 0 <= a < b < |t| ensures !eq(t[a].0, t[b].0) {
      if b == i {
        assert t[a] in s;
        assert cmp(x.0, t[a].0) != 0;
      } else if a == i {
        assert t[b] in s;
      }
    }
  }

  /** Any sequence of insertions of new keys, extractions of present keys and
      rotations anywhere; the recolouring of a red-black tree is made of the last. */
  ghost predicate Builds<K, V>(trees: seq<Tree<K, V>>, ops: seq<Op<K, V>>, cmp: (K, K) -> int, eq: (K, K) -> bool) {
    && |trees| == |ops| + 1 && trees[0] == Leaf
    && forall i | 0 <= i < |ops| :: Makes(trees[i], ops[i], cmp, eq, trees[i + 1])
  }

  /** In every table built by these operations the index and the scan agree. */
  lemma {:induction false} BuiltIndexAgrees<K(!new), V(!new)>(trees: seq<Tree<K, V>>, ops: seq<Op<K, V>>,
                                                              cmp: (K, K) -> int, eq: (K, K) -> bool, n: nat, k: K)
    requires Order(cmp, eq) && Builds(trees, ops, cmp, eq) && n < |trees|
    ensures Bst(trees[n], cmp) && Distinct(Inorder(trees[n]), eq)
    ensures Descend(trees[n], cmp, k) == Scan(Inorder(trees[n]), eq, k)
  {
    if n > 0 {
      BuiltIndexAgrees(trees, ops, cmp, eq, n - 1, k);
      assert Makes(trees[n - 1], ops[n - 1], cmp, eq, trees[n - 1 + 1]);
      MakesKeeps(trees[n - 1], ops[n - 1], cmp, eq, trees[n]);
    }
    IndexAgreesWithScan(trees[n], cmp, eq, k);
  }
}
