// The registry of util/alg_ds: an array ordered by an ever-increasing key, with
// tombstones, found by binary search, and compacted or resized on the way.
module AssocReg {
  import opened E2ap

  datatype Bucket<V> = Bucket(key: nat, has: bool, val: V)

  /** The live entries, in the order of the array. */
  function Live<V>(b: seq<Bucket<V>>): seq<(nat, V)> {
    if b == [] then []
    else Live(b[..|b| - 1]) + (if b[|b| - 1].has then [(b[|b| - 1].key, b[|b| - 1].val)] else [])
  }

  ghost predicate Sorted<V>(b: seq<Bucket<V>>) {
    forall i, j | 0 <= i < j < |b| :: b[i].key < b[j].key
  }

  lemma LiveSnoc<V>(b: seq<Bucket<V>>, e: Bucket<V>)
    ensures Live(b + [e]) == Live(b) + (if e.has then [(e.key, e.val)] else [])
  {
    assert (b + [e])[..|b|] == b;
  }

  lemma LiveAppend<V>(a: seq<Bucket<V>>, b: seq<Bucket<V>>)
    ensures Live(a + b) == Live(a) + Live(b)
  {
    if b == [] {
      assert a + b == a;
    } else {
      var c := b[..|b| - 1];
      LiveAppend(a, c);
      LiveSnoc(a + c, b[|b| - 1]);
      assert a + b == a + c + [b[|b| - 1]];
    }
  }

  /** Where bucket i stands among the live entries. */
  lemma LiveSplit<V>(b: seq<Bucket<V>>, i: nat)
    requires i < |b|
    ensures Live(b) == Live(b[..i]) + (if b[i].has then [(b[i].key, b[i].val)] else []) + Live(b[i + 1..])
  {
    LiveAppend(b[..i + 1], b[i + 1..]);
    assert b == b[..i + 1] + b[i + 1..];
    assert b[..i + 1][..i] == b[..i];
  }

  lemma LiveUpdate<V>(b: seq<Bucket<V>>, i: nat, e: Bucket<V>)
    requires i < |b|
    ensures Live(b[i := e]) == Live(b[..i]) + (if e.has then [(e.key, e.val)] else []) + Live(b[i + 1..])
  {
    LiveSplit(b[i := e], i);
    assert b[i := e][..i] == b[..i] && b[i := e][i + 1..] == b[i + 1..];
  }

  lemma LiveHas<V>(b: seq<Bucket<V>>, e: (nat, V)) returns (i: nat)
    requires e in Live(b)
    ensures i < |b| && b[i].has && b[i].key == e.0
  {
    var c := b[..|b| - 1];
    if e in Live(c) {
      i := LiveHas(c, e);
    } else {
      i := |b| - 1;
    }
  }

  /** The entry under a key, as a table would give it. */
  function Lookup<V>(s: seq<(nat, V)>, k: nat): Option<V> {
    if s == [] then None
    else if s[|s| - 1].0 == k then Some(s[|s| - 1].1)
    else Lookup(s[..|s| - 1], k)
  }

  function Removed<V>(s: seq<(nat, V)>, k: nat): seq<(nat, V)> {
    if s == [] then []
    else Removed(s[..|s| - 1], k) + (if s[|s| - 1].0 == k then [] else [s[|s| - 1]])
  }

  lemma LookupAppend<V>(s: seq<(nat, V)>, t: seq<(nat, V)>, k: nat)
    ensures Lookup(s + t, k) == if Lookup(t, k).Some? then Lookup(t, k) else Lookup(s, k)
    ensures Removed(s + t, k) == Removed(s, k) + Removed(t, k)
  {
    if t == [] {
      assert s + t == s;
    } else {
      LookupAppend(s, t[..|t| - 1], k);
      assert (s + t)[..|s + t| - 1] == s + t[..|t| - 1];
    }
  }

  lemma LookupAbsent<V>(s: seq<(nat, V)>, k: nat)
    requires forall e | e in s :: e.0 != k
    ensures Lookup(s, k) == None && Removed(s, k) == s
  {
    if s != [] {
      LookupAbsent(s[..|s| - 1], k);
      assert s == s[..|s| - 1] + [s[|s| - 1]];
    }
  }

  lemma LiveAbsent<V>(b: seq<Bucket<V>>, k: nat)
    requires forall i | 0 <= i < |b| :: b[i].has ==> b[i].key != k
    ensures Lookup(Live(b), k) == None && Removed(Live(b), k) == Live(b)
  {
    forall e | e in Live(b) ensures e.0 != k {
      var i := LiveHas(b, e);
    }
    LookupAbsent(Live(b), k);
  }

  /** What the live bucket i means for its key. */
  lemma LiveAt<V>(b: seq<Bucket<V>>, i: nat)
    requires Sorted(b) && i < |b| && b[i].has
    ensures Lookup(Live(b), b[i].key) == Some(b[i].val)
    ensures Removed(Live(b), b[i].key) == Live(b[i := b[i].(has := false)])
  {
    var k := b[i].key;
    LiveSplit(b, i);
    LiveUpdate(b, i, b[i].(has := false));
    LiveAbsent(b[..i], k);
    LiveAbsent(b[i + 1..], k);
    var one := [(k, b[i].val)];
    LookupAppend(Live(b[..i]), one, k);
    LookupAppend(Live(b[..i]) + one, Live(b[i + 1..]), k);
    assert one[..0] == [];
  }

  /** The entries with another value under one key. */
  function Replaced<V>(s: seq<(nat, V)>, k: nat, v: V): seq<(nat, V)> {
    seq(|s|, i requires 0 <= i < |s| => if s[i].0 == k then (k, v) else s[i])
  }

  /** A lookup under that key gives the new value, under another the old one. */
  lemma {:induction false} LookupReplaced<V>(s: seq<(nat, V)>, k: nat, v: V, j: nat)
    ensures |Replaced(s, k, v)| == |s|
    ensures Lookup(Replaced(s, k, v), j) == if j == k && Lookup(s, k).Some? then Some(v) else Lookup(s, j)
  {
    if s != [] {
      LookupReplaced(s[..|s| - 1], k, v, j);
      assert Replaced(s, k, v)[..|s| - 1] == Replaced(s[..|s| - 1], k, v);
    }
  }

  lemma Patched<V>(b: seq<Bucket<V>>, i: nat, v: V)
    requires Sorted(b) && i < |b| && b[i].has
    ensures Live(b[i := b[i].(val := v)]) == Replaced(Live(b), b[i].key, v)
  {
    LiveSplit(b, i);
    LiveUpdate(b, i, b[i].(val := v));
    forall e | e in Live(b[..i]) ensures e.0 != b[i].key {
      var j := LiveHas(b[..i], e);
    }
    forall e | e in Live(b[i + 1..]) ensures e.0 != b[i].key {
      var j := LiveHas(b[i + 1..], e);
    }
    PatchedParts(Live(b[..i]), (b[i].key, b[i].val), Live(b[i + 1..]), v);
  }

  lemma PatchedParts<V>(s: seq<(nat, V)>, e: (nat, V), t: seq<(nat, V)>, v: V)
    requires forall d | d in s :: d.0 != e.0
    requires forall d | d in t :: d.0 != e.0
    ensures Replaced(s + [e] + t, e.0, v) == s + [(e.0, v)] + t
  {
  }

  /** A bucket becomes a tombstone. */
  lemma Buried<V>(b: seq<Bucket<V>>, i: nat)
    requires Sorted(b) && i < |b| && b[i].has
    ensures var c := b[i := b[i].(has := false)];
            && Live(c) == Removed(Live(b), b[i].key) && |Live(c)| == |Live(b)| - 1 && Sorted(c)
            && forall e | e in c :: exists d :: d in b && d.key == e.key
  {
    LiveAt(b, i);
    LiveSplit(b, i);
    LiveUpdate(b, i, b[i].(has := false));
    assert b[i] in b;
  }

  /** The live buckets alone. */
  function Compacted<V>(b: seq<Bucket<V>>): seq<Bucket<V>> {
    if b == [] then []
    else Compacted(b[..|b| - 1]) + (if b[|b| - 1].has then [b[|b| - 1]] else [])
  }

  lemma CompactedSnoc<V>(b: seq<Bucket<V>>, e: Bucket<V>)
    ensures Compacted(b + [e]) == Compacted(b) + (if e.has then [e] else [])
  {
    assert (b + [e])[..|b|] == b;
  }

  lemma {:induction false} CompactedLive<V>(b: seq<Bucket<V>>)
    ensures Live(Compacted(b)) == Live(b)
    ensures |Compacted(b)| == |Live(b)| <= |b|
  {
    if b != [] {
      var c, e := b[..|b| - 1], b[|b| - 1];
      CompactedLive(c);
      if e.has {
        LiveSnoc(Compacted(c), e);
      } else {
        assert Compacted(c) + [] == Compacted(c) && Live(c) + [] == Live(c);
      }
    }
  }

  lemma {:induction false} CompactedMembers<V>(b: seq<Bucket<V>>)
    ensures forall e | e in Compacted(b) :: e in b
  {
    if b != [] {
      CompactedMembers(b[..|b| - 1]);
    }
  }

  lemma {:induction false} CompactedSorted<V>(b: seq<Bucket<V>>)
    requires Sorted(b)
    ensures Sorted(Compacted(b))
  {
    if b != [] {
      var c, e := b[..|b| - 1], b[|b| - 1];
      CompactedSorted(c);
      CompactedMembers(c);
      forall d | d in Compacted(c) ensures d.key < e.key {
        var i :| 0 <= i < |c| && c[i] == d;
        assert b[i] == d;
      }
    }
  }

  lemma CompactedKeeps<V>(b: seq<Bucket<V>>)
    requires Sorted(b)
    ensures Live(Compacted(b)) == Live(b) && |Compacted(b)| == |Live(b)| <= |b|
    ensures Sorted(Compacted(b)) && forall e | e in Compacted(b) :: e in b
  {
    CompactedLive(b);
    CompactedMembers(b);
    CompactedSorted(b);
  }

  lemma PushSorted<V>(b: seq<Bucket<V>>, e: Bucket<V>)
    requires Sorted(b) && 1 <= e.key && forall d | d in b :: 1 <= d.key < e.key
    ensures Sorted(b + [e]) && forall d | d in b + [e] :: 1 <= d.key < e.key + 1
  {
  }

  const MIN_SIZE := 16

  /** Capacities: the least one, doubled any number of times. */
  predicate Capacity(n: nat) {
    n == MIN_SIZE || (n > MIN_SIZE && n % 2 == 0 && Capacity(n / 2))
  }

  class Registry<V> {
    const blank: Bucket<V>
    var arr: array<Bucket<V>>
    var sz: nat
    var occ: nat
    var keyId: nat

    ghost predicate Valid()
      reads this, arr
    {
      && Capacity(arr.Length) && occ < arr.Length
      && Sorted(arr[..occ])
      && (forall e | e in arr[..occ] :: 1 <= e.key < keyId)
      && sz == |Live(arr[..occ])|
      && keyId >= 1
    }

    ghost function Entries(): seq<(nat, V)>
      reads this, arr
      requires occ <= arr.Length
    {
      Live(arr[..occ])
    }

    constructor (v: V)
      ensures Valid() && Entries() == [] && keyId == 1 && fresh(arr)
    {
      blank := Bucket(0, false, v);
      arr := new Bucket<V>[MIN_SIZE](_ => Bucket(0, false, v));
      sz, occ, keyId := 0, 0, 1;
    }

    /** copy_if of the live buckets into another array. */
    method CopyLive(dst: array<Bucket<V>>) returns (n: nat)
      requires dst != arr && occ <= arr.Length && occ <= dst.Length
      modifies dst
      ensures n <= occ && dst[..n] == Compacted(arr[..occ])
    {
      n := 0;
      for i := 0 to occ
        invariant n <= i && dst[..n] == Compacted(arr[..i])
      {
        assert arr[..i + 1] == arr[..i] + [arr[i]];
        CompactedSnoc(arr[..i], arr[i]);
        if arr[i].has {
          ghost var front := dst[..n];
          dst[n] := arr[i];
          n := n + 1;
          assert dst[..n] == front + [arr[i]];
        }
      }
    }

    /** partition: the live buckets move to the front of the same array. */
    method Partition() returns (n: nat)
      requires occ <= arr.Length
      modifies arr
      ensures n <= occ && arr[..n] == Compacted(old(arr[..occ]))
    {
      ghost var was := arr[..occ];
      n := 0;
      for i := 0 to occ
        invariant n <= i && arr[..n] == Compacted(was[..i])
        invariant forall j | i <= j < occ :: arr[j] == was[j]
      {
        assert was[..i + 1] == was[..i] + [was[i]];
        CompactedSnoc(was[..i], was[i]);
        if arr[i].has {
          ghost var front := arr[..n];
          arr[n] := arr[i];
          n := n + 1;
          assert arr[..n] == front + [was[i]];
        }
      }
      assert was[..occ] == was;
    }

    method ExpandIfNecessary()
      requires Valid()
      modifies this
      ensures Valid() && Entries() == old(Entries()) && keyId == old(keyId)
      ensures occ < arr.Length - 1 && (arr == old(arr) || fresh(arr))
    {
      if occ < arr.Length - 1 {
        return;
      }
      CompactedKeeps(arr[..occ]);
      var tmp := new Bucket<V>[arr.Length * 2](_ => blank);
      var n := CopyLive(tmp);
      arr := tmp;
      occ := n;
    }

    method Append(v: V)
      requires Valid() && occ < arr.Length - 1
      modifies this`sz, this`occ, this`keyId, arr
      ensures Valid() && keyId == old(keyId) + 1
      ensures Entries() == old(Entries()) + [(old(keyId), v)]
    {
      var e := Bucket(keyId, true, v);
      ghost var was := arr[..occ];
      LiveSnoc(was, e);
      PushSorted(was, e);
      arr[occ] := e;
      assert arr[..occ + 1] == was + [e];
      keyId, occ, sz := keyId + 1, occ + 1, sz + 1;
    }

    method PushBack(v: V) returns (key: nat)
      requires Valid() && keyId < TWO_32
      modifies this, arr
      ensures Valid() && (arr == old(arr) || fresh(arr))
      ensures key == old(keyId) && keyId == key + 1
      ensures Entries() == old(Entries()) + [(key, v)]
    {
      ExpandIfNecessary();
      key := keyId;
      Append(v);
    }

    /** assoc_reg_front: the first live bucket, or the end. */
    method Front() returns (i: nat)
      requires occ <= arr.Length
      ensures i <= occ && (i < occ ==> arr[i].has)
      ensures forall j | 0 <= j < i :: !arr[j].has
    {
      i := 0;
      while i < occ && !arr[i].has
        invariant i <= occ
        invariant forall j | 0 <= j < i :: !arr[j].has
      {
        i := i + 1;
      }
    }

    /** lower_bound_reg, tombstones included. */
    method LowerBound(start: nat, key: nat) returns (lower: nat)
      requires Valid() && start <= occ
      ensures start <= lower <= occ
      ensures forall j | start <= j < lower :: arr[j].key < key
      ensures forall j | lower <= j < occ :: arr[j].key >= key
    {
      lower := start;
      var len: nat := occ - start;
      while len > 0
        invariant start <= lower && lower + len <= occ
        invariant forall j | start <= j < lower :: arr[j].key < key
        invariant forall j | lower + len <= j < occ :: arr[j].key >= key
      {
        var half := len / 2;
        var idx := lower + half;
        assert forall j | start <= j < idx :: arr[..occ][j].key < arr[..occ][idx].key;
        assert forall j | idx < j < occ :: arr[..occ][idx].key < arr[..occ][j].key;
        if arr[idx].key < key {
          lower := idx + 1;
          len := len - half - 1;
        } else {
          len := half;
        }
      }
    }

    /** find_reg from the front: the bucket of a live key, or the end. */
    method Find(key: nat) returns (i: nat)
      requires Valid() && key > 0
      ensures i <= occ
      ensures i < occ ==> arr[i].has && arr[i].key == key && Lookup(Entries(), key) == Some(arr[i].val)
      ensures i == occ ==> Lookup(Entries(), key) == None
    {
      var front := Front();
      i := LowerBound(front, key);
      if i < occ && (!arr[i].has || arr[i].key != key) {
        assert forall j | i < j < occ :: arr[..occ][i].key < arr[..occ][j].key;
        i := occ;
      }
      if i < occ {
        LiveAt(arr[..occ], i);
      } else {
        LiveAbsent(arr[..occ], key);
      }
    }

    /** A write through the pointer to a live value. */
    method Patch(i: nat, v: V)
      requires Valid() && i < occ && arr[i].has
      modifies arr
      ensures Valid() && Entries() == Replaced(old(Entries()), arr[i].key, v)
      ensures arr[i] == old(arr[i]).(val := v)
    {
      Patched(arr[..occ], i, v);
      ghost var was := arr[..occ];
      arr[i] := arr[i].(val := v);
      assert arr[..occ] == was[i := was[i].(val := v)];
    }

    method CompactIfNecessary()
      requires Valid()
      modifies this, arr
      ensures Valid() && Entries() == old(Entries()) && keyId == old(keyId) && arr == old(arr)
    {
      if sz * 2 > occ {
        return;
      }
      CompactedKeeps(arr[..occ]);
      occ := Partition();
    }

    method ShrinkIfNecessary()
      requires Valid()
      modifies this, arr
      ensures Valid() && Entries() == old(Entries()) && keyId == old(keyId)
      ensures arr == old(arr) || fresh(arr)
    {
      if arr.Length == MIN_SIZE || sz * 4 > arr.Length {
        return;
      }
      CompactedKeeps(arr[..occ]);
      occ := Partition();
      Halve();
    }

    method Halve()
      requires Valid() && arr.Length > MIN_SIZE && occ < arr.Length / 2
      modifies this`arr
      ensures Valid() && Entries() == old(Entries()) && fresh(arr)
    {
      var tmp := new Bucket<V>[arr.Length / 2](_ => blank);
      for i := 0 to occ
        modifies tmp
        invariant tmp[..i] == arr[..i]
      {
        tmp[i] := arr[i];
      }
      arr := tmp;
    }

    method Bury(i: nat)
      requires Valid() && i < occ && arr[i].has
      modifies this`sz, arr
      ensures Valid()
      ensures Entries() == Removed(old(Entries()), old(arr[i].key))
    {
      Buried(arr[..occ], i);
      ghost var was := arr[..occ];
      arr[i] := arr[i].(has := false);
      sz := sz - 1;
      assert arr[..occ] == was[i := was[i].(has := false)];
    }

    /** assoc_reg_erase of the one element at i. */
    method Erase(i: nat)
      requires Valid() && i < occ && arr[i].has
      modifies this, arr
      ensures Valid() && (arr == old(arr) || fresh(arr)) && keyId == old(keyId)
      ensures Entries() == Removed(old(Entries()), old(arr[i].key))
    {
      Bury(i);
      CompactIfNecessary();
      ShrinkIfNecessary();
    }
  }
}
