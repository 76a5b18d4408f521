// The three places where the RIC process keeps its connected E2 nodes: the
// socket bimap of the endpoint, conn_e2_nodes, and the registry of the iApp.
module NodeTables {
  import opened E2ap
  import opened BiMap
  import Orders
  import opened RegE2Nodes

  type Addr = Orders.SctpInfo

  /** e2_node_t. */
  datatype ConnNode = ConnNode(id: NodeId, accepted: seq<U16>)

  datatype Nodes = Nodes(sockets: Bi<NodeId, Addr>, conn: seq<ConnNode>, iapp: map<NodeId, seq<RanFunc>>)

  const EMPTY := Nodes(Bi(map[], map[]), [], map[])

  datatype Event = Setup(id: NodeId, addr: Addr, rf: seq<RanFunc>) | Shutdown(addr: Addr)

  ghost predicate Listed(conn: seq<ConnNode>, id: NodeId) {
    exists i :: 0 <= i < |conn| && conn[i].id == id
  }

  ghost predicate NoneTwice(conn: seq<ConnNode>) {
    forall i, j | 0 <= i < j < |conn| :: conn[i].id != conn[j].id
  }

  /** The accepted functions are all those offered, in the order of the request. */
  function Accepted(rf: seq<RanFunc>): seq<U16> {
    seq(|rf|, i requires 0 <= i < |rf| => rf[i].id)
  }

  /** These are the ids of the offered functions, in their order. */
  ghost predicate Offers(rf: seq<RanFunc>, accepted: seq<U16>) {
    |accepted| == |rf| && forall i | 0 <= i < |rf| :: accepted[i] == rf[i].id
  }

  /** The three hold the same nodes, none twice, with the same RAN functions. */
  ghost predicate Agree(n: Nodes) {
    && n.sockets.Inverse()
    && (forall i | 0 <= i < |n.conn| :: n.conn[i].id in n.iapp && n.conn[i].accepted == Accepted(n.iapp[n.conn[i].id]))
    && NoneTwice(n.conn)
    && (forall d | d in n.sockets.left :: Listed(n.conn, d))
    && n.iapp.Keys == n.sockets.left.Keys
  }

  /** A distinct node on a new association; a shutdown of a known one. */
  predicate Allowed(n: Nodes, e: Event) {
    match e
    case Setup(id, addr, rf) => n.sockets.Fresh(id, addr) && id !in n.iapp && rf != []
    case Shutdown(addr) => addr in n.sockets.right
  }

  function IndexOf(conn: seq<ConnNode>, id: NodeId): (i: nat)
    ensures i <= |conn| && (i < |conn| ==> conn[i].id == id)
    ensures forall j | 0 <= j < i :: conn[j].id != id
  {
    if conn == [] || conn[0].id == id then 0
    else
      var i := IndexOf(conn[1..], id);
      assert forall j | 1 <= j < i + 1 :: conn[j] == conn[1..][j - 1];
      1 + i
  }

  function Erase(conn: seq<ConnNode>, id: NodeId): seq<ConnNode> {
    var i := IndexOf(conn, id);
    if i == |conn| then conn else conn[..i] + conn[i + 1..]
  }

  function Apply(n: Nodes, e: Event): Nodes
    requires Allowed(n, e)
  {
    match e
    case Setup(id, addr, rf) =>
      Nodes(n.sockets.Insert(id, addr), n.conn + [ConnNode(id, Accepted(rf))], n.iapp[id := rf])
    case Shutdown(addr) =>
      var id := n.sockets.right[addr];
      Nodes(n.sockets.ExtractRight(addr), Erase(n.conn, id), n.iapp - {id})
  }

  lemma SetupAgrees(n: Nodes, id: NodeId, addr: Addr, rf: seq<RanFunc>)
    requires Agree(n) && Allowed(n, Setup(id, addr, rf))
    ensures Agree(Apply(n, Setup(id, addr, rf)))
  {
    var t := Apply(n, Setup(id, addr, rf));
    forall d | d in t.sockets.left ensures Listed(t.conn, d) {
      if d == id {
        assert t.conn[|n.conn|].id == id;
      } else {
        var i :| 0 <= i < |n.conn| && n.conn[i].id == d;
        assert t.conn[i].id == d;
      }
    }
  }

  lemma ErasePlace(conn: seq<ConnNode>, id: NodeId) returns (i: nat)
    requires Listed(conn, id) && NoneTwice(conn)
    ensures i < |conn| && conn[i].id == id && i == IndexOf(conn, id) && Erase(conn, id) == conn[..i] + conn[i + 1..]
  {
    i := IndexOf(conn, id);
  }

  /** Without position i: none twice, and the others are still listed. */
  lemma ErasedLists(conn: seq<ConnNode>, i: nat)
    requires i < |conn| && NoneTwice(conn)
    ensures var t := conn[..i] + conn[i + 1..];
            && NoneTwice(t)
            && (forall j | 0 <= j < |t| :: t[j] == conn[if j < i then j else j + 1] && t[j].id != conn[i].id)
            && (forall d | d != conn[i].id :: Listed(conn, d) ==> Listed(t, d))
  {
    var t := conn[..i] + conn[i + 1..];
    assert forall j | 0 <= j < |t| :: t[j] == conn[if j < i then j else j + 1];
    forall d | d != conn[i].id && Listed(conn, d) ensures Listed(t, d) {
      var j :| 0 <= j < |conn| && conn[j].id == d;
      assert t[if j < i then j else j - 1] == conn[j];
    }
  }

  lemma ErasedMembers(conn: seq<ConnNode>, i: nat)
    requires i < |conn| && NoneTwice(conn)
    ensures forall c :: c in conn[..i] + conn[i + 1..] <==> c in conn && c.id != conn[i].id
  {
    ErasedLists(conn, i);
    var t := conn[..i] + conn[i + 1..];
    forall c | c in conn && c.id != conn[i].id ensures c in t {
      var j :| 0 <= j < |conn| && conn[j] == c;
      assert t[if j < i then j else j - 1] == c;
    }
  }

  lemma ExtractInverse(m: Bi<NodeId, Addr>, a: Addr)
    requires m.Inverse() && a in m.right
    ensures m.ExtractRight(a).Inverse()
  {
    var q := m.ExtractRight(a);
    forall k | k in q.left ensures q.left[k] in q.right && q.right[q.left[k]] == k {
      assert m.left[k] in m.right;
    }
    forall v | v in q.right ensures q.right[v] in q.left && q.left[q.right[v]] == v {
      assert m.right[v] in m.left;
    }
  }

  lemma ShutdownAgrees(n: Nodes, addr: Addr)
    requires Agree(n) && Allowed(n, Shutdown(addr))
    ensures Agree(Apply(n, Shutdown(addr)))
  {
    var id := n.sockets.right[addr];
    assert Listed(n.conn, id);
    var i := ErasePlace(n.conn, id);
    ErasedLists(n.conn, i);
    ExtractInverse(n.sockets, addr);
    ErasedAgrees(n, addr, i, n.conn[..i] + n.conn[i + 1..]);
  }

  lemma ErasedAgrees(n: Nodes, addr: Addr, i: nat, t: seq<ConnNode>)
    requires Agree(n) && addr in n.sockets.right && i < |n.conn| && n.conn[i].id == n.sockets.right[addr]
    requires n.sockets.ExtractRight(addr).Inverse() && NoneTwice(t)
    requires forall j | 0 <= j < |t| :: t[j] in n.conn && t[j].id != n.conn[i].id
    requires forall d | d != n.conn[i].id :: Listed(n.conn, d) ==> Listed(t, d)
    ensures Agree(Nodes(n.sockets.ExtractRight(addr), t, n.iapp - {n.sockets.right[addr]}))
  {
    var id := n.sockets.right[addr];
    assert n.sockets.left[id] == addr;
    assert n.sockets.ExtractRight(addr).left.Keys == n.sockets.left.Keys - {id};
  }

  /** The node of the association is gone, and the others are as before. */
  lemma ShutdownGone(n: Nodes, addr: Addr)
    requires Agree(n) && Allowed(n, Shutdown(addr))
    ensures var t := Apply(n, Shutdown(addr));
            var id := n.sockets.right[addr];
            && t.iapp == n.iapp - {id} && t.sockets.left == n.sockets.left - {id}
            && t.sockets.right == n.sockets.right - {addr}
            && (forall c :: c in t.conn <==> c in n.conn && c.id != id)
  {
    assert Listed(n.conn, n.sockets.right[addr]);
    var i := ErasePlace(n.conn, n.sockets.right[addr]);
    ErasedMembers(n.conn, i);
  }

  lemma ApplyAgrees(n: Nodes, e: Event)
    requires Agree(n) && Allowed(n, e)
    ensures Agree(Apply(n, e))
  {
    match e {
      case Setup(id, addr, rf) => SetupAgrees(n, id, addr, rf);
      case Shutdown(addr) => ShutdownAgrees(n, addr);
    }
  }

  // ---------------------------------------------------------------- any sequence of events

  ghost predicate Run(trace: seq<Nodes>, events: seq<Event>) {
    && |trace| == |events| + 1 && trace[0] == EMPTY
    && forall i | 0 <= i < |events| :: Allowed(trace[i], events[i]) && trace[i + 1] == Apply(trace[i], events[i])
  }

  /** Event i set a node up whose association has not been shut down by event n. */
  predicate Alive(events: seq<Event>, n: nat, i: nat)
    requires i < n <= |events|
  {
    events[i].Setup? && forall j | i < j < n :: events[j] != Shutdown(events[i].addr)
  }

  /** The surviving nodes among the first k events, in the order of their setup. */
  function Survivors(events: seq<Event>, n: nat, k: nat): seq<(NodeId, Addr)>
    requires k <= n <= |events|
  {
    if k == 0 then []
    else
      Survivors(events, n, k - 1)
      + (if Alive(events, n, k - 1) then [(events[k - 1].id, events[k - 1].addr)] else [])
  }

  function Without(s: seq<(NodeId, Addr)>, a: Addr): seq<(NodeId, Addr)> {
    if s == [] then [] else Without(s[..|s| - 1], a) + (if s[|s| - 1].1 == a then [] else [s[|s| - 1]])
  }

  lemma WithoutSnoc(s: seq<(NodeId, Addr)>, e: (NodeId, Addr), a: Addr)
    ensures Without(s + [e], a) == Without(s, a) + (if e.1 == a then [] else [e])
  {
    assert (s + [e])[..|s|] == s;
  }

  /** One more event: a setup changes no earlier survivor, a shutdown removes its address. */
  lemma {:induction false} SurvivorsStep(events: seq<Event>, n: nat, k: nat)
    requires k <= n < |events|
    ensures Survivors(events, n + 1, k)
            == if events[n].Setup? then Survivors(events, n, k) else Without(Survivors(events, n, k), events[n].addr)
  {
    if k > 0 {
      SurvivorsStep(events, n, k - 1);
      AliveStep(events, n, k - 1);
      var before := Survivors(events, n, k - 1);
      assert before + [] == before;
      if Alive(events, n, k - 1) && events[n].Shutdown? {
        WithoutSnoc(before, (events[k - 1].id, events[k - 1].addr), events[n].addr);
        assert Without(before, events[n].addr) + [] == Without(before, events[n].addr);
      }
    }
  }

  lemma AliveStep(events: seq<Event>, n: nat, i: nat)
    requires i < n < |events|
    ensures Alive(events, n + 1, i) <==> Alive(events, n, i) && events[n] != Shutdown(events[i].addr)
  {
  }

  function Pairs(n: Nodes): seq<(NodeId, Addr)>
    requires forall i | 0 <= i < |n.conn| :: n.conn[i].id in n.sockets.left
  {
    seq(|n.conn|, i requires 0 <= i < |n.conn| => (n.conn[i].id, n.sockets.left[n.conn[i].id]))
  }

  /** A sequence in which only position i has the address. */
  lemma {:induction false} WithoutOne(s: seq<(NodeId, Addr)>, i: nat, a: Addr)
    requires i < |s| && s[i].1 == a && forall j | 0 <= j < |s| && j != i :: s[j].1 != a
    ensures Without(s, a) == s[..i] + s[i + 1..]
  {
    var front := s[..|s| - 1];
    if i == |s| - 1 {
      WithoutNone(front, a);
    } else {
      WithoutOne(front, i, a);
      assert front[..i] == s[..i] && front[i + 1..] + [s[|s| - 1]] == s[i + 1..];
    }
  }

  lemma {:induction false} WithoutNone(s: seq<(NodeId, Addr)>, a: Addr)
    requires forall j | 0 <= j < |s| :: s[j].1 != a
    ensures Without(s, a) == s
  {
    if s != [] {
      WithoutNone(s[..|s| - 1], a);
      assert s == s[..|s| - 1] + [s[|s| - 1]];
    }
  }

  lemma SetupPairs(n: Nodes, id: NodeId, addr: Addr, rf: seq<RanFunc>)
    requires Agree(n) && Allowed(n, Setup(id, addr, rf))
    requires Agree(Apply(n, Setup(id, addr, rf)))
    ensures Pairs(Apply(n, Setup(id, addr, rf))) == Pairs(n) + [(id, addr)]
  {
  }

  lemma OnlyAt(n: Nodes, addr: Addr, i: nat, j: nat)
    requires Agree(n) && addr in n.sockets.right && i < |n.conn| && n.conn[i].id == n.sockets.right[addr]
    requires j < |n.conn|
    ensures n.conn[j].id in n.sockets.left && (n.sockets.left[n.conn[j].id] == addr <==> j == i)
  {
    assert n.conn[j].id in n.iapp.Keys;
    assert n.sockets.right[n.sockets.left[n.conn[j].id]] == n.conn[j].id;
  }

  lemma ShutdownPairs(n: Nodes, addr: Addr)
    requires Agree(n) && Allowed(n, Shutdown(addr))
    ensures forall i | 0 <= i < |n.conn| :: n.conn[i].id in n.sockets.left
    ensures var t := Apply(n, Shutdown(addr));
            && (forall i | 0 <= i < |t.conn| :: t.conn[i].id in t.sockets.left)
            && Pairs(t) == Without(Pairs(n), addr)
  {
    var id := n.sockets.right[addr];
    assert Listed(n.conn, id);
    var i := ErasePlace(n.conn, id);
    forall j: nat | j < |n.conn| ensures n.conn[j].id in n.sockets.left
        && (n.sockets.left[n.conn[j].id] == addr <==> j == i) {
      OnlyAt(n, addr, i, j);
    }
    var p := Pairs(n);
    WithoutOne(p, i, addr);
    PairsErased(n, addr, i);
  }

  lemma PairsErased(n: Nodes, addr: Addr, i: nat)
    requires addr in n.sockets.right && i < |n.conn| && n.conn[i].id == n.sockets.right[addr]
    requires forall j | 0 <= j < |n.conn| :: n.conn[j].id in n.sockets.left
    requires forall j | 0 <= j < |n.conn| && j != i :: n.conn[j].id != n.conn[i].id
    ensures var t := Nodes(n.sockets.ExtractRight(addr), n.conn[..i] + n.conn[i + 1..],
                           n.iapp - {n.sockets.right[addr]});
            && (forall i | 0 <= i < |t.conn| :: t.conn[i].id in t.sockets.left)
            && Pairs(t) == Pairs(n)[..i] + Pairs(n)[i + 1..]
  {
    var t := Nodes(n.sockets.ExtractRight(addr), n.conn[..i] + n.conn[i + 1..], n.iapp - {n.sockets.right[addr]});
    assert forall j | 0 <= j < |t.conn| :: t.conn[j] == n.conn[if j < i then j else j + 1];
  }

  lemma PairsStep(n: Nodes, e: Event)
    requires Agree(n) && Allowed(n, e) && Agree(Apply(n, e))
    ensures Pairs(Apply(n, e)) == if e.Setup? then Pairs(n) + [(e.id, e.addr)] else Without(Pairs(n), e.addr)
  {
    match e {
      case Setup(id, addr, rf) => SetupPairs(n, id, addr, rf);
      case Shutdown(addr) => ShutdownPairs(n, addr);
    }
  }

  /** After every event the three registries agree, the bimap is a bijection, and
      conn_e2_nodes lists the surviving nodes in the order in which they were set up. */
  lemma {:induction false} RegistriesAgree(trace: seq<Nodes>, events: seq<Event>, n: nat)
    requires Run(trace, events) && n < |trace|
    ensures Agree(trace[n])
    ensures Pairs(trace[n]) == Survivors(events, n, n)
  {
    if n > 0 {
      RegistriesAgree(trace, events, n - 1);
      var s, e := trace[n - 1], events[n - 1];
      assert trace[n - 1 + 1] == Apply(s, e);
      ApplyAgrees(s, e);
      SurvivorsStep(events, n - 1, n - 1);
      PairsStep(s, e);
      assert Survivors(events, n, n) == Survivors(events, n, n - 1) + (if e.Setup? then [(e.id, e.addr)] else []);
    }
  }

  /** What the registries hold of a node that was set up with these functions. */
  ghost predicate Keeps(n: Nodes, id: NodeId, addr: Addr, rf: seq<RanFunc>) {
    && id in n.sockets.left && n.sockets.left[id] == addr
    && id in n.iapp && n.iapp[id] == rf
    && exists j :: 0 <= j < |n.conn| && n.conn[j].id == id && Offers(rf, n.conn[j].accepted)
  }

  lemma SetupKeeps(n: Nodes, id: NodeId, addr: Addr, rf: seq<RanFunc>)
    requires Agree(n) && Allowed(n, Setup(id, addr, rf))
    ensures Keeps(Apply(n, Setup(id, addr, rf)), id, addr, rf)
  {
    assert Apply(n, Setup(id, addr, rf)).conn[|n.conn|].id == id;
  }

  lemma OtherSetupKeeps(n: Nodes, e: Event, id: NodeId, addr: Addr, rf: seq<RanFunc>)
    requires Agree(n) && e.Setup? && Allowed(n, e) && Keeps(n, id, addr, rf)
    ensures Keeps(Apply(n, e), id, addr, rf)
  {
    var j :| 0 <= j < |n.conn| && n.conn[j].id == id && Offers(rf, n.conn[j].accepted);
    assert Apply(n, e).conn[j] == n.conn[j];
  }

  lemma OtherShutdownKeeps(n: Nodes, a: Addr, id: NodeId, addr: Addr, rf: seq<RanFunc>)
    requires Agree(n) && Allowed(n, Shutdown(a)) && Keeps(n, id, addr, rf) && a != addr
    ensures Keeps(Apply(n, Shutdown(a)), id, addr, rf)
  {
    var gone := n.sockets.right[a];
    var j :| 0 <= j < |n.conn| && n.conn[j].id == id && Offers(rf, n.conn[j].accepted);
    assert n.sockets.left[gone] == a;
    assert Listed(n.conn, gone);
    var i := ErasePlace(n.conn, gone);
    ErasedMembers(n.conn, i);
    assert n.conn[j] in Apply(n, Shutdown(a)).conn;
  }

  /** On every run the registries hold of each surviving node the functions, in
      their order, and the association that its own setup brought. */
  lemma {:induction false} SurvivorsKeep(trace: seq<Nodes>, events: seq<Event>, n: nat, i: nat)
    requires Run(trace, events) && n < |trace| && i < n && Alive(events, n, i)
    ensures Keeps(trace[n], events[i].id, events[i].addr, events[i].rf)
  {
    var s, e := trace[n - 1], events[n - 1];
    RegistriesAgree(trace, events, n - 1);
    assert trace[n - 1 + 1] == Apply(s, e);
    if i == n - 1 {
      SetupKeeps(s, e.id, e.addr, e.rf);
    } else {
      SurvivorsKeep(trace, events, n - 1, i);
      if e.Setup? {
        OtherSetupKeeps(s, e, events[i].id, events[i].addr, events[i].rf);
      } else {
        OtherShutdownKeeps(s, e.addr, events[i].id, events[i].addr, events[i].rf);
      }
    }
  }

  /** For ids without the MBMS exception the equality of the scans is identity. */
  lemma EqualityIsIdentity(types: set<NodeType>, a: NodeId, b: NodeId)
    requires Orders.OneFamily(types) && MbmsSta !in types
    requires Orders.Among(types, a) && Orders.Among(types, b)
    requires Orders.Monolithic(a.typ) ==> a.cuDu == None
    requires Orders.Monolithic(b.typ) ==> b.cuDu == None
    ensures Orders.EqNode(a, b) <==> a == b
  {
    assert a.typ in types && b.typ in types;
  }

  // ---------------------------------------------------------------- the object

  class NodeKeeper {
    var sockets: Bi<NodeId, Addr>
    var conn: seq<ConnNode>
    var iapp: map<NodeId, seq<RanFunc>>

    function State(): Nodes
      reads this
    {
      Nodes(sockets, conn, iapp)
    }

    constructor ()
      ensures State() == EMPTY
    {
      sockets, conn, iapp := Bi(map[], map[]), [], map[];
    }

    /** generate_setup_response: every function of the node is known to the RIC. */
    method GenerateSetupResponse(rf: seq<RanFunc>, plugins: set<U16>) returns (accepted: array<U16>)
      requires forall f | f in rf :: f.id in plugins
      ensures fresh(accepted) && accepted[..] == Accepted(rf)
      ensures accepted.Length == |rf| && forall i | 0 <= i < |rf| :: accepted[i] == rf[i].id
    {
      accepted := new U16[|rf|](_ => 0);
      for i := 0 to |rf|
        invariant accepted[..i] == Accepted(rf)[..i]
      {
        assert rf[i].id in plugins;
        accepted[i] := rf[i].id;
      }
    }

    /** The arrival of a setup request: the event loop registers the socket, the
        handler the node in the iApp and, once the response is made, in conn_e2_nodes. */
    method HandleSetup(id: NodeId, addr: Addr, rf: seq<RanFunc>, plugins: set<U16>)
      requires Agree(State()) && Allowed(State(), Setup(id, addr, rf))
      requires forall f | f in rf :: f.id in plugins
      modifies this
      ensures State() == Apply(old(State()), Setup(id, addr, rf)) && Agree(State())
      ensures iapp == old(iapp)[id := rf]
      ensures sockets.left == old(sockets.left)[id := addr] && sockets.right == old(sockets.right)[addr := id]
      ensures |conn| == |old(conn)| + 1 && conn[..|old(conn)|] == old(conn)
      ensures conn[|old(conn)|].id == id && Offers(rf, conn[|old(conn)|].accepted)
    {
      ghost var was := State();
      sockets := sockets.Insert(id, addr);
      iapp := iapp[id := rf];
      var accepted := GenerateSetupResponse(rf, plugins);
      conn := conn + [ConnNode(id, accepted[..])];
      ApplyAgrees(was, Setup(id, addr, rf));
    }

    /** The node is found in conn_e2_nodes and taken out. */
    method EraseConn(id: NodeId)
      requires Listed(conn, id) && NoneTwice(conn)
      modifies this`conn
      ensures conn == Erase(old(conn), id)
    {
      ghost var at := ErasePlace(conn, id);
      var i := 0;
      while conn[i].id != id
        invariant 0 <= i <= at
        decreases at - i
      {
        i := i + 1;
      }
      conn := conn[..i] + conn[i + 1..];
    }

    /** notification_handle_ric; the node is registered in all three. */
    method HandleShutdown(addr: Addr)
      requires Agree(State()) && Allowed(State(), Shutdown(addr))
      modifies this
      ensures State() == Apply(old(State()), Shutdown(addr)) && Agree(State())
      ensures var id := old(sockets.right[addr]);
              && iapp == old(iapp) - {id} && sockets.left == old(sockets.left) - {id}
              && sockets.right == old(sockets.right) - {addr}
              && (forall c :: c in conn <==> c in old(conn) && c.id != id)
    {
      ApplyAgrees(State(), Shutdown(addr));
      ShutdownGone(State(), addr);
      var id := sockets.right[addr];
      sockets := sockets.ExtractRight(addr);
      EraseConn(id);
      iapp := iapp - {id};
    }
  }
}
