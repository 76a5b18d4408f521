// The registry of E2 nodes of the iApp and of the xApps: a tree of nodes in
// comparator order, and the array snapshot that is taken of it.
module RegE2Nodes {
  import opened E2ap
  import AssocTree
  import opened Orders

  datatype RanFunc = RanFunc(id: U16, rev: int, def: int)

  /** An entry of the tree, and of the array: a node with its RAN functions. */
  datatype Connected = Connected(id: NodeId, rf: seq<RanFunc>)

  // ---------------------------------------------------------------- the registry as a value

  predicate Registered(entries: seq<Connected>, id: NodeId) {
    exists i :: 0 <= i < |entries| && EqNode(id, entries[i].id)
  }

  /** The iteration order of the tree: strictly by the comparator, in one family of ids. */
  ghost predicate Ordered(entries: seq<Connected>, types: set<NodeType>) {
    && OneFamily(types)
    && (forall e | e in entries :: Among(types, e.id))
    && (forall i, j | 0 <= i < j < |entries| :: CmpNode(entries[i].id, entries[j].id) == 1)
  }

  /** Where the tree puts a new id: before the first entry that it precedes. */
  function PlaceOf(entries: seq<Connected>, id: NodeId): (i: nat)
    requires Split(id.typ) ==> id.cuDu.Some?
    requires forall e | e in entries :: Split(e.id.typ) ==> e.id.cuDu.Some?
    ensures i <= |entries|
    ensures forall j | 0 <= j < i :: CmpNode(id, entries[j].id) != 1
    ensures i < |entries| ==> CmpNode(id, entries[i].id) == 1
  {
    if entries == [] || CmpNode(id, entries[0].id) == 1 then 0
    else
      var i := PlaceOf(entries[1..], id);
      assert forall j | 1 <= j < i + 1 :: entries[j] == entries[1..][j - 1];
      1 + i
  }

  function Put(entries: seq<Connected>, e: Connected): seq<Connected>
    requires Split(e.id.typ) ==> e.id.cuDu.Some?
    requires forall d | d in entries :: Split(d.id.typ) ==> d.id.cuDu.Some?
  {
    AssocTree.Splice(entries, PlaceOf(entries, e.id), e)
  }

  function Drop(entries: seq<Connected>, id: NodeId): seq<Connected> {
    if entries == [] then []
    else if EqNode(id, entries[0].id) then entries[1..]
    else [entries[0]] + Drop(entries[1..], id)
  }

  lemma BeforeAfter(types: set<NodeType>, a: NodeId, b: NodeId, c: NodeId)
    requires OneFamily(types) && Among(types, a) && Among(types, b) && Among(types, c)
    requires CmpNode(a, b) == 1 && CmpNode(b, c) == 1
    ensures CmpNode(a, c) == 1
  {
    NodeOrderIffOneFamily(types);
    assert NodeChain(a, b, c) && NodeChain(c, a, b) && NodeChain(b, c, a);
  }

  /** The place splits the entries into those before the new id and those after it. */
  lemma PutPlace(entries: seq<Connected>, types: set<NodeType>, id: NodeId, j: nat)
    requires Ordered(entries, types) && Among(types, id) && !Registered(entries, id) && j < |entries|
    ensures j < PlaceOf(entries, id) ==> CmpNode(entries[j].id, id) == 1
    ensures j >= PlaceOf(entries, id) ==> CmpNode(id, entries[j].id) == 1
  {
    var i := PlaceOf(entries, id);
    assert !EqNode(id, entries[j].id);
    Opposite(id, entries[j].id);
    if j > i {
      BeforeAfter(types, id, entries[i].id, entries[j].id);
    }
  }

  lemma Opposite(a: NodeId, b: NodeId)
    requires Split(a.typ) ==> a.cuDu.Some?
    requires Split(b.typ) ==> b.cuDu.Some?
    ensures CmpNode(a, b) == 1 <==> CmpNode(b, a) == -1
    ensures CmpNode(a, b) == -1 <==> CmpNode(b, a) == 1
    ensures CmpNode(a, b) == 0 <==> EqNode(a, b)
    ensures CmpNode(a, b) == 1 || CmpNode(a, b) == 0 || CmpNode(a, b) == -1
    ensures EqNode(a, b) <==> EqNode(b, a)
  {
  }

  lemma SpliceOrdered(entries: seq<Connected>, i: nat, e: Connected)
    requires i <= |entries|
    requires forall d | d in entries :: Split(d.id.typ) ==> d.id.cuDu.Some?
    requires Split(e.id.typ) ==> e.id.cuDu.Some?
    requires forall j, k | 0 <= j < k < |entries| :: CmpNode(entries[j].id, entries[k].id) == 1
    requires forall j | 0 <= j < i :: CmpNode(entries[j].id, e.id) == 1
    requires forall j | i <= j < |entries| :: CmpNode(e.id, entries[j].id) == 1
    ensures var t := AssocTree.Splice(entries, i, e);
            && (forall d | d in t :: d in entries || d == e)
            && (forall j, k | 0 <= j < k < |t| :: CmpNode(t[j].id, t[k].id) == 1)
  {
    var t := AssocTree.Splice(entries, i, e);
    forall j, k | 0 <= j < k < |t| ensures CmpNode(t[j].id, t[k].id) == 1 {
      assert t[j] == if j < i then entries[j] else if j == i then e else entries[j - 1];
      assert t[k] == if k < i then entries[k] else if k == i then e else entries[k - 1];
    }
  }

  lemma SpliceRegistered(entries: seq<Connected>, i: nat, e: Connected, id: NodeId)
    requires i <= |entries|
    ensures Registered(AssocTree.Splice(entries, i, e), id) <==> Registered(entries, id) || EqNode(id, e.id)
  {
    var t := AssocTree.Splice(entries, i, e);
    assert t[i] == e;
    assert forall j | 0 <= j < |entries| :: entries[j] == t[if j < i then j else j + 1];
  }

  lemma PutOrdered(entries: seq<Connected>, types: set<NodeType>, e: Connected)
    requires Ordered(entries, types) && Among(types, e.id) && !Registered(entries, e.id)
    ensures Ordered(Put(entries, e), types)
    ensures forall id :: Registered(Put(entries, e), id) <==> Registered(entries, id) || EqNode(id, e.id)
  {
    forall j: nat | j < |entries|
      ensures j < PlaceOf(entries, e.id) ==> CmpNode(entries[j].id, e.id) == 1
      ensures j >= PlaceOf(entries, e.id) ==> CmpNode(e.id, entries[j].id) == 1
    {
      PutPlace(entries, types, e.id, j);
    }
    SpliceOrdered(entries, PlaceOf(entries, e.id), e);
    forall id ensures Registered(Put(entries, e), id) <==> Registered(entries, id) || EqNode(id, e.id) {
      SpliceRegistered(entries, PlaceOf(entries, e.id), e, id);
    }
  }

  /** Exactly the new entry joins the others, with the functions that it came with. */
  lemma PutMembers(entries: seq<Connected>, e: Connected)
    requires Split(e.id.typ) ==> e.id.cuDu.Some?
    requires forall d | d in entries :: Split(d.id.typ) ==> d.id.cuDu.Some?
    ensures forall d :: d in Put(entries, e) <==> d in entries || d == e
  {
    var i := PlaceOf(entries, e.id);
    assert entries == entries[..i] + entries[i..];
  }

  /** Entries that come in order go in at the end. */
  lemma PutLast(entries: seq<Connected>, types: set<NodeType>, i: nat)
    requires Ordered(entries, types) && i < |entries|
    ensures !Registered(entries[..i], entries[i].id)
    ensures Put(entries[..i], entries[i]) == entries[..i] + [entries[i]]
  {
    forall j | 0 <= j < i ensures CmpNode(entries[i].id, entries[j].id) == -1 && !EqNode(entries[i].id, entries[j].id) {
      Opposite(entries[j].id, entries[i].id);
    }
    assert PlaceOf(entries[..i], entries[i].id) == i;
  }

  lemma {:induction false} DropRemoves(entries: seq<Connected>, id: NodeId) returns (i: nat)
    requires Registered(entries, id)
    ensures i < |entries| && EqNode(id, entries[i].id) && forall j | 0 <= j < i :: !EqNode(id, entries[j].id)
    ensures Drop(entries, id) == entries[..i] + entries[i + 1..]
  {
    if EqNode(id, entries[0].id) {
      i := 0;
    } else {
      var k :| 0 <= k < |entries| && EqNode(id, entries[k].id);
      assert entries[1..][k - 1] == entries[k];
      var n := DropRemoves(entries[1..], id);
      i := n + 1;
      assert entries[..i] == [entries[0]] + entries[1..][..n] && entries[1..][n + 1..] == entries[i + 1..];
    }
  }

  lemma DropOrdered(entries: seq<Connected>, types: set<NodeType>, id: NodeId)
    requires Ordered(entries, types) && Among(types, id) && Registered(entries, id)
    ensures Ordered(Drop(entries, id), types)
    ensures forall d | Among(types, d) :: Registered(Drop(entries, id), d) <==> Registered(entries, d) && !EqNode(d, id)
    ensures forall e :: e in Drop(entries, id) <==> e in entries && !EqNode(id, e.id)
  {
    var i := DropRemoves(entries, id);
    var t := Drop(entries, id);
    NodeOrderIffOneFamily(types);
    assert forall j | 0 <= j < |t| :: t[j] == entries[if j < i then j else j + 1];
    DropMembers(entries, types, id, i);
    forall d | Among(types, d) ensures Registered(t, d) <==> Registered(entries, d) && !EqNode(d, id) {
      DropOne(entries, types, id, d, i);
    }
  }

  lemma DropMembers(entries: seq<Connected>, types: set<NodeType>, id: NodeId, i: nat)
    requires Ordered(entries, types) && Among(types, id) && i < |entries| && EqNode(id, entries[i].id)
    ensures forall e :: e in entries[..i] + entries[i + 1..] <==> e in entries && !EqNode(id, e.id)
  {
    forall j: nat | j < |entries| ensures EqNode(id, entries[j].id) <==> j == i {
      if EqNode(id, entries[j].id) {
        SameNode(entries, types, id, id, i, j);
      }
    }
    OthersStay(entries, i, entries[..i] + entries[i + 1..]);
  }

  lemma OthersStay(entries: seq<Connected>, i: nat, t: seq<Connected>)
    requires i < |entries| && t == entries[..i] + entries[i + 1..]
    ensures forall e | e in t :: exists j :: 0 <= j < |entries| && j != i && entries[j] == e
    ensures forall j | 0 <= j < |entries| && j != i :: entries[j] in t
  {
    assert forall j | 0 <= j < |t| :: t[j] == entries[if j < i then j else j + 1];
    forall j | 0 <= j < |entries| && j != i ensures entries[j] in t {
      assert t[if j < i then j else j - 1] == entries[j];
    }
  }

  /** No two entries are equal, and equality is transitive within a family. */
  lemma DropOne(entries: seq<Connected>, types: set<NodeType>, id: NodeId, d: NodeId, i: nat)
    requires Ordered(entries, types) && Among(types, id) && Among(types, d)
    requires i < |entries| && EqNode(id, entries[i].id)
    ensures Registered(entries[..i] + entries[i + 1..], d) <==> Registered(entries, d) && !EqNode(d, id)
  {
    forall j: nat | j < |entries| && EqNode(d, entries[j].id) ensures j == i <==> EqNode(d, id) {
      SameNode(entries, types, id, d, i, j);
    }
    WithoutOne(entries, i, d);
  }

  lemma WithoutOne(entries: seq<Connected>, i: nat, d: NodeId)
    requires i < |entries|
    ensures Registered(entries[..i] + entries[i + 1..], d)
            <==> exists j :: 0 <= j < |entries| && j != i && EqNode(d, entries[j].id)
  {
    var t := entries[..i] + entries[i + 1..];
    if j :| 0 <= j < |t| && EqNode(d, t[j].id) {
      assert t[j] == entries[if j < i then j else j + 1];
    }
    if j :| 0 <= j < |entries| && j != i && EqNode(d, entries[j].id) {
      assert entries[j] == t[if j < i then j else j - 1];
    }
  }

  lemma SameNode(entries: seq<Connected>, types: set<NodeType>, id: NodeId, d: NodeId, i: nat, j: nat)
    requires Ordered(entries, types) && Among(types, id) && Among(types, d)
    requires i < |entries| && j < |entries| && EqNode(id, entries[i].id) && EqNode(d, entries[j].id)
    ensures j == i <==> EqNode(d, id)
  {
    assert i != j ==> !EqNode(entries[i].id, entries[j].id);
  }

  // ---------------------------------------------------------------- any sequence of changes

  datatype Change = Added(id: NodeId, rf: seq<RanFunc>) | Gone(id: NodeId)

  /** One change of a registry in order: a new node, or a registered one that leaves. */
  ghost predicate Changed(s: seq<Connected>, c: Change, types: set<NodeType>, t: seq<Connected>)
    requires Ordered(s, types)
  {
    && Among(types, c.id)
    && match c
       case Added(id, rf) => !Registered(s, id) && t == Put(s, Connected(id, rf))
       case Gone(id) => Registered(s, id) && t == Drop(s, id)
  }

  ghost predicate Changes(trace: seq<seq<Connected>>, cs: seq<Change>, types: set<NodeType>) {
    && OneFamily(types) && |trace| == |cs| + 1 && trace[0] == []
    && forall i | 0 <= i < |cs| :: Ordered(trace[i], types) && Changed(trace[i], cs[i], types, trace[i + 1])
  }

  /** Change i added this entry, and none of the later ones up to n removed it. */
  ghost predicate AddedBy(cs: seq<Change>, n: nat, e: Connected, i: nat) {
    && i < n <= |cs| && cs[i] == Added(e.id, e.rf)
    && forall j | i < j < n && cs[j].Gone? :: !EqNode(cs[j].id, e.id)
  }

  lemma ChangeMembers(s: seq<Connected>, c: Change, types: set<NodeType>, t: seq<Connected>)
    requires Ordered(s, types) && Changed(s, c, types, t)
    ensures Ordered(t, types)
    ensures forall e :: e in t <==> (e in s && !(c.Gone? && EqNode(c.id, e.id))) || c == Added(e.id, e.rf)
  {
    match c {
      case Added(id, rf) =>
        PutOrdered(s, types, Connected(id, rf));
        PutMembers(s, Connected(id, rf));
      case Gone(id) => DropOrdered(s, types, id);
    }
  }

  lemma LastChange(trace: seq<seq<Connected>>, cs: seq<Change>, types: set<NodeType>, n: nat, m: nat, e: Connected)
    requires Changes(trace, cs, types) && n < |cs| && m == n + 1
    ensures e in trace[m] <==>
              (e in trace[n] && !(cs[n].Gone? && EqNode(cs[n].id, e.id))) || cs[n] == Added(e.id, e.rf)
  {
    assert Changed(trace[n], cs[n], types, trace[n + 1]);
    ChangeMembers(trace[n], cs[n], types, trace[m]);
  }

  /** After any changes the registry, and with it the array that is taken of it,
      lists exactly the nodes that were added and have not gone since, each with
      the functions that it was added with, in their order. */
  lemma {:induction false} ListsTheAdded(trace: seq<seq<Connected>>, cs: seq<Change>, types: set<NodeType>, n: nat,
                                         e: Connected)
    requires Changes(trace, cs, types) && n < |trace|
    ensures e in trace[n] <==> exists i: nat :: AddedBy(cs, n, e, i)
  {
    if n == 0 {
      assert trace[0] == [];
    } else {
      ListsTheAdded(trace, cs, types, n - 1, e);
      LastChange(trace, cs, types, n - 1, n, e);
      AddedStep(cs, n - 1, n, e);
    }
  }

  /** One change more: the entry stays unless it has gone, or it has just been added. */
  lemma AddedStep(cs: seq<Change>, n: nat, m: nat, e: Connected)
    requires n < |cs| && m == n + 1
    ensures (exists i: nat :: AddedBy(cs, m, e, i)) <==>
              || cs[n] == Added(e.id, e.rf)
              || ((exists i: nat :: AddedBy(cs, n, e, i)) && !(cs[n].Gone? && EqNode(cs[n].id, e.id)))
  {
    if i: nat :| AddedBy(cs, m, e, i) {
      if i < n {
        assert AddedBy(cs, n, e, i);
      }
    }
    if cs[n] == Added(e.id, e.rf) {
      assert AddedBy(cs, m, e, n);
    } else if i: nat :| AddedBy(cs, n, e, i) {
      if !(cs[n].Gone? && EqNode(cs[n].id, e.id)) {
        assert AddedBy(cs, m, e, i);
      }
    }
  }

  // ---------------------------------------------------------------- the bound of the snapshot

  /** The length of the array is kept in a uint8_t. */
  function ArrayLen(n: nat): nat {
    n % (MAX_NODES + 1)
  }

  // ---------------------------------------------------------------- the object

  class Registry {
    ghost const types: set<NodeType>
    var nodes: seq<Connected>

    ghost predicate Valid()
      reads this
    {
      Ordered(nodes, types)
    }

    constructor (ghost types: set<NodeType>)
      requires OneFamily(types)
      ensures Valid() && nodes == [] && this.types == types
    {
      this.types := types;
      nodes := [];
    }

    /** find_if with eq_global_e2_node_id: the position, or the end. */
    method Find(id: NodeId) returns (i: nat)
      ensures i <= |nodes| && (i < |nodes| ==> EqNode(id, nodes[i].id))
      ensures forall j | 0 <= j < i :: !EqNode(id, nodes[j].id)
      ensures i < |nodes| <==> Registered(nodes, id)
    {
      i := 0;
      while i < |nodes| && !EqNode(id, nodes[i].id)
        invariant i <= |nodes|
        invariant forall j | 0 <= j < i :: !EqNode(id, nodes[j].id)
      {
        i := i + 1;
      }
    }

    method Add(id: NodeId, ranFunc: seq<RanFunc>)
      requires Valid() && Among(types, id) && ranFunc != [] && !Registered(nodes, id)
      modifies this
      ensures Valid() && nodes == Put(old(nodes), Connected(id, ranFunc))
      ensures forall d :: Registered(nodes, d) <==> Registered(old(nodes), d) || EqNode(d, id)
      ensures forall e :: e in nodes <==> e in old(nodes) || e == Connected(id, ranFunc)
    {
      var arr := [];
      for i := 0 to |ranFunc|
        invariant arr == ranFunc[..i]
      {
        arr := arr + [ranFunc[i]];
      }
      assert arr == ranFunc;
      var e := Connected(id, arr);
      PutOrdered(nodes, types, e);
      PutMembers(nodes, e);
      var at := 0;
      while at < |nodes| && CmpNode(id, nodes[at].id) != 1
        invariant 0 <= at <= PlaceOf(nodes, id)
      {
        at := at + 1;
      }
      assert at == PlaceOf(nodes, id);
      nodes := nodes[..at] + [e] + nodes[at..];
    }

    method Rm(id: NodeId)
      requires Valid() && Among(types, id) && Registered(nodes, id)
      modifies this
      ensures Valid() && nodes == Drop(old(nodes), id)
      ensures forall d | Among(types, d) :: Registered(nodes, d) <==> Registered(old(nodes), d) && !EqNode(d, id)
      ensures forall e :: e in nodes <==> e in old(nodes) && !EqNode(id, e.id)
    {
      var i := Find(id);
      ghost var k := DropRemoves(nodes, id);
      assert k == i;
      DropOrdered(nodes, types, id);
      nodes := nodes[..i] + nodes[i + 1..];
    }

    /** cp_reg_e2_node: a second tree with copies of all entries. */
    method Copy() returns (ans: seq<Connected>)
      requires Valid()
      ensures ans == nodes
    {
      ans := [];
      for i := 0 to |nodes|
        invariant ans == nodes[..i]
      {
        var rf := [];
        for j := 0 to |nodes[i].rf|
          invariant rf == nodes[i].rf[..j]
        {
          rf := rf + [nodes[i].rf[j]];
        }
        var at := 0;
        while at < |ans| && CmpNode(nodes[i].id, ans[at].id) != 1
          invariant 0 <= at <= |ans|
        {
          at := at + 1;
        }
        if at < |ans| {
          Opposite(ans[at].id, nodes[i].id);
        }
        assert at == |ans| && Connected(nodes[i].id, rf) == nodes[i];
        ans := ans[..at] + [Connected(nodes[i].id, rf)] + ans[at..];
      }
    }

    /** generate_e2_node_arr: each node once, in order, with its RAN functions. The
        loop runs over all nodes; `overrun` is the first index at which it writes
        past the array, after which nothing is known. */
    method Generate() returns (arr: array<Connected>, overrun: Option<nat>)
      requires Valid()
      ensures fresh(arr) && arr.Length == ArrayLen(|nodes|)
      ensures overrun == None <==> |nodes| <= MAX_NODES
      ensures overrun == None ==> arr[..] == nodes
      ensures overrun.Some? ==> overrun.value == arr.Length < |nodes| && arr[..] == nodes[..overrun.value]
    {
      var t := Copy();
      arr := new Connected[ArrayLen(|t|)](_ => Connected(NodeId(ENB, Plmn(0, 0, 0), 0, None), []));
      overrun := None;
      var i := 0;
      while i < |t| && overrun == None
        invariant 0 <= i <= |t| && i <= arr.Length
        invariant arr[..i] == t[..i]
        invariant overrun.Some? ==> overrun.value == i == arr.Length < |t|
        decreases |t| - i, if overrun == None then 1 else 0
      {
        var rf := [];
        for j := 0 to |t[i].rf|
          invariant rf == t[i].rf[..j]
        {
          rf := rf + [t[i].rf[j]];
        }
        assert Connected(t[i].id, rf) == t[i];
        if i < arr.Length {
          arr[i] := Connected(t[i].id, rf);
          i := i + 1;
        } else {
          overrun := Some(i);
        }
      }
    }

    /** The setup response at an xApp: its registry becomes that of the iApp. */
    method AddAll(arr: array<Connected>)
      requires Valid() && nodes == [] && Ordered(arr[..], types) && forall e | e in arr[..] :: e.rf != []
      modifies this
      ensures Valid() && nodes == arr[..]
    {
      for i := 0 to arr.Length
        invariant Valid() && nodes == arr[..i]
      {
        assert arr[..][i] == arr[i] && arr[..][..i] == arr[..i];
        PutLast(arr[..], types, i);
        Add(arr[i].id, arr[i].rf);
        assert Connected(arr[i].id, arr[i].rf) == arr[i];
        assert nodes == arr[..i + 1];
      }
    }

    /** valid_global_e2_node. */
    method ValidNode(id: NodeId) returns (ok: bool)
      requires Valid() && |nodes| <= MAX_NODES
      ensures ok <==> Registered(nodes, id)
    {
      var arr, overrun := Generate();
      for i := 0 to arr.Length
        invariant forall j | 0 <= j < i :: !EqNode(arr[j].id, id)
      {
        assert arr[i] == nodes[i];
        if EqNode(arr[i].id, id) {
          return true;
        }
      }
      assert forall j | 0 <= j < |nodes| :: nodes[j] == arr[j];
      return false;
    }
  }

  /** Each registered node appears exactly once in the snapshot. */
  lemma SnapshotOnce(entries: seq<Connected>, types: set<NodeType>, id: NodeId)
    requires Ordered(entries, types) && Among(types, id) && Registered(entries, id)
    ensures exists i :: 0 <= i < |entries| && EqNode(id, entries[i].id)
              && forall j | 0 <= j < |entries| && j != i :: !EqNode(id, entries[j].id)
  {
    var i :| 0 <= i < |entries| && EqNode(id, entries[i].id);
    forall j | 0 <= j < |entries| && j != i ensures !EqNode(id, entries[j].id) {
      if EqNode(id, entries[j].id) {
        SameNode(entries, types, id, id, i, j);
      }
    }
  }
}
