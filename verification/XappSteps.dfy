// The xApps keep the invariant; their calls fail only on what the caller passes.
module XappSteps {
  import opened E2ap
  import opened BiMap
  import opened RicTables
  import opened IdMap
  import opened XappTables
  import opened AgentTables
  import opened Protocol
  import opened Invariant
  import opened Frames
  import opened RequestLife

  // ---------------------------------------------------------------- one xApp moves

  /** Only the xApp on `k`, its two channels and what it has received change. */
  ghost predicate Moves(s: Sys, k: Sock, x: XappState, t: Sys) {
    && k in s.xs && k in s.x2i && k in s.i2x && k in t.x2i && k in t.i2x
    && x.id == s.xs[k].id
    && t == s.(xs := s.xs[k := x], x2i := s.x2i[k := t.x2i[k]], i2x := s.i2x[k := t.i2x[k]],
               received := t.received)
    && (forall q: XappRicId | q.xapp != x.id :: Get(t.received, q) == Get(s.received, q))
  }

  ghost predicate Home(s: Sys, k: Sock) {
    k in s.xs && s.xs[k].id in s.socks && s.socks[s.xs[k].id] == k
  }

  lemma Same<K, V>(m: map<K, V>, k: K)
    requires k in m
    ensures m[k := m[k]] == m
  {
  }

  lemma MoveBound(s: Sys, k: Sock, x: XappState, t: Sys)
    requires Moves(s, k, x, t)
    ensures Bound(t) == Bound(s)
  {
  }

  lemma MoveSocks(s: Sys, k: Sock, x: XappState, t: Sys)
    requires SocksOk(s.xs, s.socks, s.nextXapp) && Moves(s, k, x, t)
    ensures SocksOk(t.xs, t.socks, t.nextXapp)
  {
    forall id | id in t.socks ensures SockOk(t.xs, t.socks, id) {
      assert SockOk(s.xs, s.socks, id);
    }
  }

  lemma MoveWf(s: Sys, k: Sock, x: XappState, t: Sys)
    requires Wf(s) && Moves(s, k, x, t) && Bound(t) == Bound(s)
    requires forall q | q in t.received :: q in Bound(s).right
    ensures Wf(t)
  {
    MoveSocks(s, k, x, t);
    assert t.xs.Keys == s.xs.Keys && t.x2i.Keys == s.x2i.Keys && t.i2x.Keys == s.i2x.Keys;
  }

  lemma MoveXapps(s: Sys, k: Sock, x: XappState, t: Sys)
    requires XappsOk(s) && Moves(s, k, x, t) && Bound(t) == Bound(s)
    requires XappOk(Bound(s).right, s.agents.Keys, x, Held(s.ipc, x.id) + t.x2i[k], t.i2x[k])
    ensures XappsOk(t)
  {
    forall j | j in t.xs ensures XappOk(Bound(t).right, t.agents.Keys, t.xs[j], Early(t, j), Get(t.i2x, j)) {
      if j != k {
        assert XappOk(Bound(s).right, s.agents.Keys, s.xs[j], Early(s, j), Get(s.i2x, j));
        assert Early(t, j) == Early(s, j);
      }
    }
  }

  /** The requests of the other xApps do not notice. */
  lemma MoveOther(s: Sys, k: Sock, x: XappState, t: Sys, i: U16)
    requires Moves(s, k, x, t) && Bound(t) == Bound(s)
    requires i in Bound(s).left && Bound(s).left[i].who.xapp != x.id
    requires SocksOk(s.xs, s.socks, s.nextXapp)
    ensures Silent(s, t, i)
  {
    if Owned(s, i) {
      var b := Bound(s).left[i];
      var j := s.socks[b.who.xapp];
      assert SockOk(s.xs, s.socks, b.who.xapp);
      assert j != k;
      assert Early(t, j) == Early(s, j);
    }
  }

  /** A request of the xApp on `k`: what the move does to its view. */
  lemma MoveOwn(s: Sys, k: Sock, x: XappState, t: Sys, i: U16)
    requires Moves(s, k, x, t) && Bound(t) == Bound(s)
    requires Owned(s, i) && s.socks[Bound(s).left[i].who.xapp] == k
    ensures Owned(t, i)
    ensures var ric := Bound(s).left[i].who.ric;
            ViewOf(t, i) == ViewOf(s, i).(
              active := ric.req in x.procs,
              call := CallOf(x.call, ric),
              early := CallOf(x.call, ric) == Waits(Delete) && Held(s.ipc, x.id) + t.x2i[k] != [],
              received := Get(t.received, Bound(s).left[i].who),
              passed := Deliver(t.i2x[k], ric) + PassedAtRic(s.rpc, i))
  {
    assert Early(t, k) == Held(s.ipc, x.id) + t.x2i[k];
  }

  /** What the xApp may change without the view of its request `i` noticing. */
  lemma MoveOwnSilent(s: Sys, k: Sock, x: XappState, t: Sys, i: U16)
    requires Moves(s, k, x, t) && Bound(t) == Bound(s)
    requires i in Bound(s).left && SocksOk(s.xs, s.socks, s.nextXapp) && Bound(s).left[i].who.xapp == x.id
    requires var who := Bound(s).left[i].who;
             && (who.ric.req in x.procs <==> who.ric.req in s.xs[k].procs)
             && CallOf(x.call, who.ric) == CallOf(s.xs[k].call, who.ric)
             && (CallOf(x.call, who.ric) == Elsewhere || t.x2i[k] == s.x2i[k])
             && Get(t.received, who) == Get(s.received, who)
             && Deliver(t.i2x[k], who.ric) == Deliver(s.i2x[k], who.ric)
    ensures Silent(s, t, i)
  {
    if Owned(s, i) {
      MoveOwn(s, k, x, t, i);
    }
  }

  /** Two bound requests of one xApp have different ids. */
  lemma OtherRic(b: Ids, i: U16, j: U16)
    requires Bijection(b.left, b.right) && i in b.left && j in b.left && i != j
    requires b.left[i].who.xapp == b.left[j].who.xapp
    ensures b.left[i].who.ric != b.left[j].who.ric
  {
    assert b.right[b.left[i].who].req == i;
    assert b.right[b.left[j].who].req == j;
  }

  /** The bound request that an id of this xApp stands for. */
  lemma OwnRequest(s: Sys, k: Sock, ric: RicGenId) returns (i: U16)
    requires Wf(s) && ViewsOk(s) && k in s.xs && XappRicId(ric, s.xs[k].id) in Bound(s).right
    ensures i in Bound(s).left && Bound(s).left[i].who == XappRicId(ric, s.xs[k].id)
    ensures RequestOk(s, i) && Home(s, k)
  {
    i := Bound(s).right[XappRicId(ric, s.xs[k].id)].req;
    assert Bijection(Bound(s).left, Bound(s).right);
    assert RequestOk(s, i);
  }

  lemma ChannelKeys(s: Sys, k: Sock)
    requires Wf(s) && k in s.xs
    ensures k in s.x2i && k in s.i2x
  {
    assert k in s.xs.Keys;
  }

  /** Everything but the views. */
  lemma Moved(s: Sys, k: Sock, x: XappState, t: Sys)
    requires Wf(s) && NodesOk(s) && XappsOk(s) && Moves(s, k, x, t) && Bound(t) == Bound(s)
    requires forall q | q in t.received :: q in Bound(s).right
    requires XappOk(Bound(s).right, s.agents.Keys, x, Held(s.ipc, x.id) + t.x2i[k], t.i2x[k])
    ensures Wf(t) && NodesOk(t) && XappsOk(t)
  {
    MoveWf(s, k, x, t);
    KeepNodes(s, t);
    MoveXapps(s, k, x, t);
  }

  lemma SameReceived(s: Sys, t: Sys)
    requires Wf(s) && t.received == s.received
    ensures forall q | q in t.received :: q in Bound(s).right
  {
  }

  // ---------------------------------------------------------------- E42 setup

  /** Numbers are given out in order and each only once, up to the width of the id. */
  lemma NextNumber(nextXapp: int, d: U16)
    requires FIRST_XAPP <= nextXapp < FIRST_XAPP + TWO_16
    ensures !Numbered(Trunc16(nextXapp), nextXapp)
    ensures Numbered(d, nextXapp + 1) <==> Numbered(d, nextXapp) || d == Trunc16(nextXapp)
  {
  }

  lemma SetupSocks(s: Sys, k: Sock, t: Sys)
    requires SocksOk(s.xs, s.socks, s.nextXapp) && DoXappSetup(s, k) == Ok(t) && t.nextXapp <= FIRST_XAPP + TWO_16
    ensures SocksOk(t.xs, t.socks, t.nextXapp)
    ensures forall id | id in s.socks :: id in t.socks && t.socks[id] == s.socks[id] && s.socks[id] != k
  {
    var id := Trunc16(s.nextXapp);
    forall d | d in t.socks ensures SockOk(t.xs, t.socks, d) {
      if d != id {
        assert SockOk(s.xs, s.socks, d);
      }
    }
    forall d | d in s.socks ensures s.socks[d] != k {
      assert SockOk(s.xs, s.socks, d);
    }
    forall d ensures d in t.socks <==> Numbered(d, t.nextXapp) {
      NextNumber(s.nextXapp, d);
    }
  }

  lemma SetupState(s: Sys, k: Sock, t: Sys)
    requires DoXappSetup(s, k) == Ok(t)
    ensures Bound(t) == Bound(s)
    ensures t.xs.Keys == s.xs.Keys + {k} && t.x2i.Keys == s.x2i.Keys + {k} && t.i2x.Keys == s.i2x.Keys + {k}
    ensures t == s.(xs := t.xs, x2i := t.x2i, i2x := t.i2x, nextXapp := t.nextXapp, socks := t.socks)
    ensures forall id | id in s.socks :: id in t.socks
  {
    assert Bound(t) == Bound(s);
  }

  lemma SetupWf(s: Sys, k: Sock, t: Sys)
    requires Wf(s) && DoXappSetup(s, k) == Ok(t) && SocksOk(t.xs, t.socks, t.nextXapp)
    ensures Wf(t) && Bound(t) == Bound(s)
  {
    SetupState(s, k, t);
    MoreSocks(s, t.socks);
  }

  lemma MoreSocks(s: Sys, socks: map<U16, Sock>)
    requires BoundOk(Bound(s), s.forwarded, s.socks, s.agents.Keys) && IpcOk(Bound(s), s.ipc, s.socks, s.agents.Keys)
    requires forall id | id in s.socks :: id in socks
    ensures BoundOk(Bound(s), s.forwarded, socks, s.agents.Keys) && IpcOk(Bound(s), s.ipc, socks, s.agents.Keys)
  {
  }

  /** A number that is not in use is the number of no request. */
  lemma SetupNew(s: Sys, k: Sock, t: Sys)
    requires Wf(s) && DoXappSetup(s, k) == Ok(t)
    ensures k in t.xs && Early(t, k) == []
    ensures XappOk(Bound(s).right, s.agents.Keys, t.xs[k], [], [])
  {
    var id := Trunc16(s.nextXapp);
    UnknownXapp(Bound(s), s.forwarded, s.socks, s.agents.Keys, s.ipc, id);
  }

  lemma UnknownXapp(b: Ids, forwarded: nat, socks: map<U16, Sock>, nodes: set<NodeId>, ipc: IPc, id: U16)
    requires BoundOk(b, forwarded, socks, nodes) && IpcOk(b, ipc, socks, nodes) && id !in socks
    ensures (forall q | q in b.right :: q.xapp != id) && Held(ipc, id) == []
  {
    forall q | q in b.right ensures q.xapp != id {
      assert HomeOk(b.left[b.right[q].req], socks, nodes);
    }
  }

  lemma SetupXapps(s: Sys, k: Sock, t: Sys)
    requires XappsOk(s) && DoXappSetup(s, k) == Ok(t) && Bound(t) == Bound(s)
    requires k in t.xs && Early(t, k) == [] && XappOk(Bound(s).right, s.agents.Keys, t.xs[k], [], [])
    ensures XappsOk(t)
  {
    forall j | j in t.xs ensures XappOk(Bound(t).right, t.agents.Keys, t.xs[j], Early(t, j), Get(t.i2x, j)) {
      if j != k {
        assert XappOk(Bound(s).right, s.agents.Keys, s.xs[j], Early(s, j), Get(s.i2x, j));
        assert Early(t, j) == Early(s, j);
      }
    }
  }

  lemma SetupSilent(s: Sys, k: Sock, t: Sys, i: U16)
    requires DoXappSetup(s, k) == Ok(t) && Bound(t) == Bound(s)
    requires forall id | id in s.socks :: id in t.socks && t.socks[id] == s.socks[id] && s.socks[id] != k
    ensures Silent(s, t, i)
  {
    if Owned(s, i) {
      var j := s.socks[Bound(s).left[i].who.xapp];
      assert Early(t, j) == Early(s, j);
    }
  }

  lemma SetupViews(s: Sys, k: Sock, t: Sys)
    requires ViewsOk(s) && DoXappSetup(s, k) == Ok(t) && Bound(t) == Bound(s)
    requires forall id | id in s.socks :: id in t.socks && t.socks[id] == s.socks[id] && s.socks[id] != k
    ensures ViewsOk(t)
  {
    forall i | i in Bound(s).left ensures Silent(s, t, i) {
      SetupSilent(s, k, t, i);
    }
    KeepViews(s, t);
  }

  lemma Setup(s: Sys, k: Sock, t: Sys)
    requires Inv(s) && DoXappSetup(s, k) == Ok(t) && t.nextXapp <= FIRST_XAPP + TWO_16
    ensures Inv(t)
  {
    SetupSocks(s, k, t);
    SetupWf(s, k, t);
    SetupNew(s, k, t);
    SetupXapps(s, k, t);
    SetupState(s, k, t);
    KeepNodes(s, t);
    SetupViews(s, k, t);
  }

  /** An xApp is turned away exactly when the ids have run out or the connected
      nodes cannot be listed. */
  lemma SetupAbort(s: Sys, k: Sock)
    requires SocksOk(s.xs, s.socks, s.nextXapp)
    ensures DoXappSetup(s, k) == Abort <==> k !in s.xs && (s.nextXapp == FIRST_XAPP + TWO_16 || !Listed(s))
  {
    if s.nextXapp < FIRST_XAPP + TWO_16 {
      NextNumber(s.nextXapp, Trunc16(s.nextXapp));
    } else {
      assert Numbered(FIRST_XAPP, s.nextXapp);
    }
  }

  // ---------------------------------------------------------------- open a procedure

  function OpenedXapp(x: XappState, kind: ReqKind, node: NodeId, func: U16, fd: Fd): XappState
    requires 1 <= x.nextKey < TWO_16
  {
    var p := Proc(kind, func, node);
    x.(procs := x.procs[x.nextKey := p], nextKey := x.nextKey + 1,
       pending := x.pending + [(fd, PendEvent(kind, RicOf(x.nextKey, p)))],
       call := Waiting(kind, RicOf(x.nextKey, p)))
  }

  function OpenRequest(x: XappState, kind: ReqKind, node: NodeId, func: U16): E42Req
    requires 1 <= x.nextKey < TWO_16
  {
    var ric := RicOf(x.nextKey, Proc(kind, func, node));
    if kind == Subscribe then E42Subscribe(x.id, node, ric) else E42Control(x.id, node, ric)
  }

  lemma OpenProcs(right: map<XappRicId, NodeReq>, x: XappState, y: XappState, kind: ReqKind, node: NodeId, func: U16,
                  fd: Fd)
    requires 1 <= x.nextKey < TWO_16 && y == OpenedXapp(x, kind, node, func, fd)
    requires kind != Delete && x.call == NoCall
    requires forall r | r in x.procs :: ProcOk(right, x, r)
    requires forall q | q in right :: GeneratedOk(x, q)
    ensures forall r | r in y.procs :: ProcOk(right, y, r)
    ensures forall q | q in right :: GeneratedOk(y, q)
    ensures XappRicId(y.call.ric, y.id) !in right
  {
    forall r | r in y.procs ensures ProcOk(right, y, r) {
      if r != x.nextKey {
        assert ProcOk(right, x, r);
      }
    }
    assert XappRicId(y.call.ric, y.id) in right ==> GeneratedOk(x, XappRicId(y.call.ric, y.id));
  }

  lemma OpenXapp(right: map<XappRicId, NodeReq>, nodes: set<NodeId>, x: XappState, y: XappState, deliver: seq<E2Ans>,
                 kind: ReqKind, node: NodeId, func: U16, fd: Fd)
    requires XappOk(right, nodes, x, [], deliver) && x.call == NoCall && x.nextKey < TWO_16
    requires y == OpenedXapp(x, kind, node, func, fd) && kind != Delete
    ensures XappOk(right, nodes, y, [OpenRequest(x, kind, node, func)], deliver)
    ensures XappRicId(y.call.ric, y.id) !in right
  {
    OpenProcs(right, x, y, kind, node, func, fd);
  }

  lemma OpenMoves(s: Sys, k: Sock, kind: ReqKind, node: NodeId, func: U16, fd: Fd, t: Sys)
    requires kind != Delete && DoOpen(s, k, kind, node, func, fd) == Ok(t) && k in s.i2x && k in s.x2i
    requires s.xs[k].nextKey >= 1
    ensures var x := s.xs[k];
            && 1 <= x.nextKey < TWO_16 && x.call == NoCall
            && Moves(s, k, OpenedXapp(x, kind, node, func, fd), t)
            && t.i2x == s.i2x && t.received == s.received
            && t.x2i[k] == s.x2i[k] + [OpenRequest(x, kind, node, func)]
  {
    Same(s.i2x, k);
  }

  lemma OpenSilent(s: Sys, k: Sock, kind: ReqKind, node: NodeId, func: U16, fd: Fd, t: Sys, i: U16)
    requires k in s.xs && 1 <= s.xs[k].nextKey < TWO_16 && s.xs[k].call == NoCall
    requires Moves(s, k, OpenedXapp(s.xs[k], kind, node, func, fd), t) && Bound(t) == Bound(s)
    requires t.i2x == s.i2x && t.received == s.received
    requires i in Bound(s).left && SocksOk(s.xs, s.socks, s.nextXapp)
    requires Bound(s).left[i].who.xapp == s.xs[k].id ==> Bound(s).left[i].who.ric.req < s.xs[k].nextKey
    ensures Silent(s, t, i)
  {
    var x := OpenedXapp(s.xs[k], kind, node, func, fd);
    if Bound(s).left[i].who.xapp == x.id {
      MoveOwnSilent(s, k, x, t, i);
    } else {
      MoveOther(s, k, x, t, i);
    }
  }

  lemma OwnGenerated(s: Sys, k: Sock, i: U16)
    requires Bijection(Bound(s).left, Bound(s).right) && i in Bound(s).left
    requires k in s.xs && forall q | q in Bound(s).right :: GeneratedOk(s.xs[k], q)
    ensures GeneratedOk(s.xs[k], Bound(s).left[i].who) && Bound(s).left[i].who in Bound(s).right
  {
  }

  lemma OpenViews(s: Sys, k: Sock, kind: ReqKind, node: NodeId, func: U16, fd: Fd, t: Sys)
    requires ViewsOk(s) && k in s.xs && 1 <= s.xs[k].nextKey < TWO_16 && s.xs[k].call == NoCall
    requires Moves(s, k, OpenedXapp(s.xs[k], kind, node, func, fd), t) && Bound(t) == Bound(s)
    requires t.i2x == s.i2x && t.received == s.received
    requires SocksOk(s.xs, s.socks, s.nextXapp) && Bijection(Bound(s).left, Bound(s).right)
    requires forall q | q in Bound(s).right :: GeneratedOk(s.xs[k], q)
    ensures ViewsOk(t)
  {
    forall i | i in Bound(s).left ensures Silent(s, t, i) {
      OwnGenerated(s, k, i);
      OpenSilent(s, k, kind, node, func, fd, t, i);
    }
    KeepViews(s, t);
  }

  lemma IdleXapp(s: Sys, k: Sock)
    requires XappsOk(s) && k in s.xs && k in s.x2i && k in s.i2x && s.xs[k].call == NoCall
    ensures Held(s.ipc, s.xs[k].id) == [] && s.x2i[k] == []
    ensures XappOk(Bound(s).right, s.agents.Keys, s.xs[k], [], s.i2x[k])
  {
    assert XappOk(Bound(s).right, s.agents.Keys, s.xs[k], Early(s, k), Get(s.i2x, k));
    assert Early(s, k) == Held(s.ipc, s.xs[k].id) + s.x2i[k];
  }

  lemma OpenReady(s: Sys, k: Sock, kind: ReqKind, node: NodeId, func: U16, fd: Fd, t: Sys)
    requires k in s.xs && k in s.x2i && k in s.i2x && s.xs[k].call == NoCall
    requires XappOk(Bound(s).right, s.agents.Keys, s.xs[k], [], s.i2x[k])
    requires Held(s.ipc, s.xs[k].id) == [] && s.x2i[k] == []
    requires kind != Delete && DoOpen(s, k, kind, node, func, fd) == Ok(t)
    ensures 1 <= s.xs[k].nextKey < TWO_16 && t.i2x == s.i2x && t.received == s.received
    ensures forall q | q in Bound(s).right :: GeneratedOk(s.xs[k], q)
    ensures var y := OpenedXapp(s.xs[k], kind, node, func, fd);
            && Moves(s, k, y, t) && Bound(t) == Bound(s)
            && XappOk(Bound(s).right, s.agents.Keys, y, Held(s.ipc, y.id) + t.x2i[k], t.i2x[k])
  {
    OpenMoves(s, k, kind, node, func, fd, t);
    var y := OpenedXapp(s.xs[k], kind, node, func, fd);
    OpenXapp(Bound(s).right, s.agents.Keys, s.xs[k], y, s.i2x[k], kind, node, func, fd);
    MoveBound(s, k, y, t);
    assert Held(s.ipc, y.id) + t.x2i[k] == [OpenRequest(s.xs[k], kind, node, func)];
  }

  lemma Open(s: Sys, k: Sock, kind: ReqKind, node: NodeId, func: U16, fd: Fd, t: Sys)
    requires Inv(s) && kind != Delete && DoOpen(s, k, kind, node, func, fd) == Ok(t)
    ensures Inv(t)
  {
    ChannelKeys(s, k);
    IdleXapp(s, k);
    OpenReady(s, k, kind, node, func, fd, t);
    SameReceived(s, t);
    Moved(s, k, OpenedXapp(s.xs[k], kind, node, func, fd), t);
    OpenViews(s, k, kind, node, func, fd, t);
  }

  // ---------------------------------------------------------------- end a subscription

  function EndingXapp(x: XappState, handle: U16, fd: Fd): XappState
    requires handle in x.procs
  {
    var ric := RicOf(handle, x.procs[handle]);
    x.(pending := x.pending + [(fd, PendEvent(Delete, ric))], call := Waiting(Delete, ric))
  }

  lemma RmMoves(s: Sys, k: Sock, handle: U16, fd: Fd, t: Sys)
    requires DoRmReport(s, k, handle, fd) == Ok(t) && k in s.i2x
    ensures k in s.xs && k in s.x2i && handle in s.xs[k].procs && s.xs[k].call == NoCall
    ensures Moves(s, k, EndingXapp(s.xs[k], handle, fd), t)
    ensures t.i2x == s.i2x && t.received == s.received
    ensures t.x2i[k] == s.x2i[k] + [E42Delete(s.xs[k].id, RicOf(handle, s.xs[k].procs[handle]))]
  {
    Same(s.i2x, k);
  }

  lemma RmXapp(right: map<XappRicId, NodeReq>, nodes: set<NodeId>, x: XappState, deliver: seq<E2Ans>, handle: U16,
               fd: Fd)
    requires XappOk(right, nodes, x, [], deliver) && x.call == NoCall && handle in x.procs
    ensures var ric := RicOf(handle, x.procs[handle]);
            && XappRicId(ric, x.id) in right
            && XappOk(right, nodes, EndingXapp(x, handle, fd), [E42Delete(x.id, ric)], deliver)
  {
    assert ProcOk(right, x, handle);
    var y := EndingXapp(x, handle, fd);
    forall r | r in y.procs ensures ProcOk(right, y, r) {
      assert ProcOk(right, x, r);
    }
  }

  lemma RmView(s: Sys, k: Sock, handle: U16, fd: Fd, t: Sys, i: U16)
    requires k in s.xs && handle in s.xs[k].procs && s.xs[k].call == NoCall
    requires Moves(s, k, EndingXapp(s.xs[k], handle, fd), t) && Bound(t) == Bound(s)
    requires t.i2x == s.i2x && t.received == s.received && t.x2i[k] != []
    requires RequestOk(s, i) && Home(s, k)
    requires Bound(s).left[i].who == XappRicId(RicOf(handle, s.xs[k].procs[handle]), s.xs[k].id)
    ensures RequestOk(t, i)
  {
    MoveOwn(s, k, EndingXapp(s.xs[k], handle, fd), t, i);
    RmReporting(ViewOf(s, i));
    assert ViewOf(t, i) == RmReported(ViewOf(s, i));
  }

  lemma RmSilent(s: Sys, k: Sock, handle: U16, fd: Fd, t: Sys, i: U16, j: U16)
    requires k in s.xs && handle in s.xs[k].procs && s.xs[k].call == NoCall
    requires Moves(s, k, EndingXapp(s.xs[k], handle, fd), t) && Bound(t) == Bound(s)
    requires t.i2x == s.i2x && t.received == s.received
    requires SocksOk(s.xs, s.socks, s.nextXapp) && Bijection(Bound(s).left, Bound(s).right)
    requires i in Bound(s).left && j in Bound(s).left && i != j
    requires Bound(s).left[i].who == XappRicId(RicOf(handle, s.xs[k].procs[handle]), s.xs[k].id)
    ensures Silent(s, t, j)
  {
    var y := EndingXapp(s.xs[k], handle, fd);
    if Bound(s).left[j].who.xapp == y.id {
      OtherRic(Bound(s), i, j);
      MoveOwnSilent(s, k, y, t, j);
    } else {
      MoveOther(s, k, y, t, j);
    }
  }

  lemma RmViews(s: Sys, k: Sock, handle: U16, fd: Fd, t: Sys, i: U16)
    requires k in s.xs && handle in s.xs[k].procs && s.xs[k].call == NoCall
    requires Moves(s, k, EndingXapp(s.xs[k], handle, fd), t) && Bound(t) == Bound(s)
    requires t.i2x == s.i2x && t.received == s.received && t.x2i[k] != []
    requires SocksOk(s.xs, s.socks, s.nextXapp) && Bijection(Bound(s).left, Bound(s).right)
    requires ViewsOk(s) && i in Bound(s).left && RequestOk(s, i) && Home(s, k)
    requires Bound(s).left[i].who == XappRicId(RicOf(handle, s.xs[k].procs[handle]), s.xs[k].id)
    ensures ViewsOk(t)
  {
    forall j | j in Bound(s).left && j != i ensures Silent(s, t, j) {
      RmSilent(s, k, handle, fd, t, i, j);
    }
    RmView(s, k, handle, fd, t, i);
    ChangeView(s, t, i);
  }

  lemma RmReady(s: Sys, k: Sock, handle: U16, fd: Fd, t: Sys)
    requires k in s.xs && k in s.x2i && k in s.i2x && s.xs[k].call == NoCall
    requires XappOk(Bound(s).right, s.agents.Keys, s.xs[k], [], s.i2x[k])
    requires Held(s.ipc, s.xs[k].id) == [] && s.x2i[k] == []
    requires DoRmReport(s, k, handle, fd) == Ok(t)
    ensures handle in s.xs[k].procs && t.i2x == s.i2x && t.received == s.received && t.x2i[k] != []
    ensures XappRicId(RicOf(handle, s.xs[k].procs[handle]), s.xs[k].id) in Bound(s).right
    ensures var y := EndingXapp(s.xs[k], handle, fd);
            && Moves(s, k, y, t) && Bound(t) == Bound(s)
            && XappOk(Bound(s).right, s.agents.Keys, y, Held(s.ipc, y.id) + t.x2i[k], t.i2x[k])
  {
    RmMoves(s, k, handle, fd, t);
    var y := EndingXapp(s.xs[k], handle, fd);
    RmXapp(Bound(s).right, s.agents.Keys, s.xs[k], s.i2x[k], handle, fd);
    MoveBound(s, k, y, t);
    assert Held(s.ipc, y.id) + t.x2i[k] == [E42Delete(s.xs[k].id, RicOf(handle, s.xs[k].procs[handle]))];
  }

  lemma RmReport(s: Sys, k: Sock, handle: U16, fd: Fd, t: Sys)
    requires Inv(s) && DoRmReport(s, k, handle, fd) == Ok(t)
    ensures Inv(t)
  {
    ChannelKeys(s, k);
    IdleXapp(s, k);
    RmReady(s, k, handle, fd, t);
    SameReceived(s, t);
    Moved(s, k, EndingXapp(s.xs[k], handle, fd), t);
    var i := OwnRequest(s, k, RicOf(handle, s.xs[k].procs[handle]));
    RmViews(s, k, handle, fd, t, i);
  }

  // ---------------------------------------------------------------- an answer arrives

  /** The xApp after answer `m`: the answer of a request ends its wait. */
  function HeardXapp(x: XappState, m: E2Ans): XappState {
    if Closes(m.kind).None? then x
    else x.(pending := [], call := Wake(x.call))
  }

  /** The head of the xApp's channel belongs to a bound request. */
  lemma Arrives(s: Sys, k: Sock) returns (i: U16)
    requires Wf(s) && XappsOk(s) && ViewsOk(s) && k in s.xs && Get(s.i2x, k) != []
    ensures i in Bound(s).left && Bound(s).left[i].who == XappRicId(s.i2x[k][0].ric, s.xs[k].id)
    ensures RequestOk(s, i) && Home(s, k)
    ensures XappOk(Bound(s).right, s.agents.Keys, s.xs[k], Early(s, k), s.i2x[k])
    ensures 1 <= s.i2x[k][0].ric.req < TWO_16
  {
    assert XappOk(Bound(s).right, s.agents.Keys, s.xs[k], Early(s, k), Get(s.i2x, k));
    assert s.i2x[k][0] in s.i2x[k];
    i := OwnRequest(s, k, s.i2x[k][0].ric);
    assert GeneratedOk(s.xs[k], Bound(s).left[i].who);
  }

  /** What the xApp knows when the answer arrives. */
  lemma Expected(s: Sys, k: Sock, i: U16)
    requires RequestOk(s, i) && k in s.xs && Home(s, k) && Get(s.i2x, k) != []
    requires Bound(s).left[i].who == XappRicId(s.i2x[k][0].ric, s.xs[k].id)
    ensures ViewOf(s, i).passed != [] && ViewOf(s, i).passed[0] == s.i2x[k][0].kind
    ensures var m := s.i2x[k][0];
            && m.ric.req in s.xs[k].procs
            && (Closes(m.kind).Some? ==> s.xs[k].call == Waiting(Closes(m.kind).value, m.ric))
            && (m.kind == DelResponse ==> Early(s, k) == [])
  {
    RequestLife.Awaited(ViewOf(s, i));
  }

  /** The table that compares kinds only gives the entry of this request. */
  lemma CoarseIsExact(x: XappState, kind: ReqKind, ric: RicGenId)
    requires TimerOk(x) && x.call == Waiting(kind, ric)
    ensures var at := CoarseIndex(x.pending, kind);
            at == 0 && |x.pending| == 1 && x.pending[0].1 == PendEvent(kind, ric) && RemoveAt(x.pending, at) == []
  {
  }

  /** The whole new state after answer `m`. */
  ghost predicate Heard(s: Sys, k: Sock, m: E2Ans, t: Sys) {
    && k in s.xs && k in s.i2x && s.i2x[k] != [] && s.i2x[k][0] == m
    && var who := XappRicId(m.ric, s.xs[k].id);
       t == s.(xs := s.xs[k := HeardXapp(s.xs[k], m)], i2x := s.i2x[k := s.i2x[k][1..]],
               received := s.received[who := Get(s.received, who) + [m.kind]])
  }

  lemma RecvIndication(s: Sys, k: Sock, m: E2Ans, t: Sys)
    requires DoXappRecv(s, k) == Ok(t) && m == s.i2x[k][0] && !s.stray
    requires m.kind.Indication? && 1 <= m.ric.req < TWO_16 && m.ric.req in s.xs[k].procs
    ensures Heard(s, k, m, t)
  {
    Same(s.xs, k);
  }

  lemma RecvAnswer(s: Sys, k: Sock, m: E2Ans, t: Sys)
    requires DoXappRecv(s, k) == Ok(t) && m == s.i2x[k][0]
    requires !m.kind.Indication? && TimerOk(s.xs[k])
    requires s.xs[k].call == Waiting(Closes(m.kind).value, m.ric)
    ensures Heard(s, k, m, t)
  {
    CoarseIsExact(s.xs[k], Closes(m.kind).value, m.ric);
  }

  lemma RecvState(s: Sys, k: Sock, t: Sys)
    requires DoXappRecv(s, k) == Ok(t) && TimerOk(s.xs[k]) && !s.stray
    requires 1 <= s.i2x[k][0].ric.req < TWO_16
    requires var m := s.i2x[k][0];
             && m.ric.req in s.xs[k].procs
             && (Closes(m.kind).Some? ==> s.xs[k].call == Waiting(Closes(m.kind).value, m.ric))
    ensures k in s.i2x && s.i2x[k] != [] && Heard(s, k, s.i2x[k][0], t)
  {
    var m := s.i2x[k][0];
    if m.kind.Indication? {
      RecvIndication(s, k, m, t);
    } else {
      RecvAnswer(s, k, m, t);
    }
  }

  lemma RecvMoves(s: Sys, k: Sock, t: Sys)
    requires k in s.i2x && s.i2x[k] != [] && k in s.x2i && Heard(s, k, s.i2x[k][0], t)
    ensures Moves(s, k, HeardXapp(s.xs[k], s.i2x[k][0]), t)
    ensures t.x2i == s.x2i && t.i2x[k] == s.i2x[k][1..]
  {
    Same(s.x2i, k);
  }

  lemma RecvXapp(right: map<XappRicId, NodeReq>, nodes: set<NodeId>, x: XappState, early: seq<E42Req>,
                 deliver: seq<E2Ans>)
    requires XappOk(right, nodes, x, early, deliver) && deliver != []
    requires var m := deliver[0];
             && (Closes(m.kind).Some? ==> x.call == Waiting(Closes(m.kind).value, m.ric))
             && (m.kind == DelResponse ==> early == [])
    ensures XappOk(right, nodes, HeardXapp(x, deliver[0]), early, deliver[1..])
  {
    var y := HeardXapp(x, deliver[0]);
    assert XappRicId(deliver[0].ric, x.id) in right by {
      assert deliver[0] in deliver;
    }
    forall r | r in y.procs ensures ProcOk(right, y, r) {
      assert ProcOk(right, x, r);
    }
    forall m | m in deliver[1..] ensures XappRicId(m.ric, y.id) in right {
      assert m in deliver;
    }
  }

  /** The answer leaves the channel and joins what the xApp has received. */
  ghost predicate Hears(s: Sys, k: Sock, m: E2Ans, t: Sys) {
    && k in s.xs && k in s.x2i && k in s.i2x && s.i2x[k] != [] && s.i2x[k][0] == m
    && Moves(s, k, HeardXapp(s.xs[k], m), t)
    && Bound(t) == Bound(s)
    && t.x2i == s.x2i && t.i2x[k] == s.i2x[k][1..]
    && (Closes(m.kind).Some? ==> s.xs[k].call == Waiting(Closes(m.kind).value, m.ric))
    && var who := XappRicId(m.ric, s.xs[k].id);
       t.received == s.received[who := Get(s.received, who) + [m.kind]]
  }

  lemma HeardPassed(k: AnsKind, rest: seq<AnsKind>, more: seq<AnsKind>)
    ensures ([k] + rest + more)[1..] == rest + more
  {
  }

  lemma RecvView(s: Sys, k: Sock, m: E2Ans, t: Sys, i: U16)
    requires Hears(s, k, m, t)
    requires Owned(s, i) && Home(s, k)
    requires Bound(s).left[i].who == XappRicId(m.ric, s.xs[k].id)
    requires m.kind == DelResponse ==> Early(s, k) == []
    requires ViewOf(s, i).passed != [] && ViewOf(s, i).passed[0] == m.kind
    ensures Owned(t, i) && ViewOf(t, i) == Received(ViewOf(s, i))
  {
    MoveOwn(s, k, HeardXapp(s.xs[k], m), t, i);
    HeardPassed(m.kind, Deliver(s.i2x[k][1..], m.ric), PassedAtRic(s.rpc, i));
  }

  lemma RecvRequest(s: Sys, k: Sock, m: E2Ans, t: Sys, i: U16)
    requires Hears(s, k, m, t)
    requires RequestOk(s, i) && Home(s, k)
    requires Bound(s).left[i].who == XappRicId(m.ric, s.xs[k].id)
    requires m.kind == DelResponse ==> Early(s, k) == []
    ensures RequestOk(t, i)
  {
    Expected(s, k, i);
    RecvView(s, k, m, t, i);
    Receiving(ViewOf(s, i));
  }

  lemma RecvSilent(s: Sys, k: Sock, m: E2Ans, t: Sys, i: U16, j: U16)
    requires Hears(s, k, m, t)
    requires SocksOk(s.xs, s.socks, s.nextXapp) && Bijection(Bound(s).left, Bound(s).right)
    requires i in Bound(s).left && Bound(s).left[i].who == XappRicId(m.ric, s.xs[k].id)
    requires j in Bound(s).left && j != i
    ensures Silent(s, t, j)
  {
    var y := HeardXapp(s.xs[k], m);
    if Bound(s).left[j].who.xapp != y.id {
      MoveOther(s, k, y, t, j);
    } else {
      OtherRic(Bound(s), i, j);
      MoveOwnSilent(s, k, y, t, j);
    }
  }

  lemma RecvViews(s: Sys, k: Sock, m: E2Ans, t: Sys, i: U16)
    requires ViewsOk(s) && Hears(s, k, m, t)
    requires SocksOk(s.xs, s.socks, s.nextXapp) && Bijection(Bound(s).left, Bound(s).right)
    requires i in Bound(s).left && Bound(s).left[i].who == XappRicId(m.ric, s.xs[k].id)
    requires RequestOk(t, i)
    ensures ViewsOk(t)
  {
    forall j | j in Bound(s).left && j != i ensures Silent(s, t, j) {
      RecvSilent(s, k, m, t, i, j);
    }
    ChangeView(s, t, i);
  }

  lemma RecvWf(s: Sys, k: Sock, m: E2Ans, t: Sys, i: U16)
    requires Wf(s) && Hears(s, k, m, t)
    requires i in Bound(s).left && Bound(s).left[i].who == XappRicId(m.ric, s.xs[k].id)
    ensures Wf(t)
  {
    assert Bijection(Bound(s).left, Bound(s).right);
    MoveWf(s, k, HeardXapp(s.xs[k], m), t);
  }

  lemma RecvHears(s: Sys, k: Sock, t: Sys) returns (i: U16)
    requires Wf(s) && XappsOk(s) && ViewsOk(s) && DoXappRecv(s, k) == Ok(t)
    ensures k in s.xs && k in s.i2x && s.i2x[k] != [] && Hears(s, k, s.i2x[k][0], t)
    ensures i in Bound(s).left && Bound(s).left[i].who == XappRicId(s.i2x[k][0].ric, s.xs[k].id)
    ensures RequestOk(s, i) && Home(s, k)
    ensures s.i2x[k][0].kind == DelResponse ==> Early(s, k) == []
  {
    ChannelKeys(s, k);
    i := Arrives(s, k);
    Expected(s, k, i);
    RecvState(s, k, t);
    RecvMoves(s, k, t);
    MoveBound(s, k, HeardXapp(s.xs[k], s.i2x[k][0]), t);
  }

  lemma Recv(s: Sys, k: Sock, t: Sys)
    requires Inv(s) && DoXappRecv(s, k) == Ok(t)
    ensures Inv(t)
  {
    var i := RecvHears(s, k, t);
    var m := s.i2x[k][0];
    RecvWf(s, k, m, t, i);
    KeepNodes(s, t);
    assert XappOk(Bound(s).right, s.agents.Keys, s.xs[k], Early(s, k), Get(s.i2x, k));
    RecvXapp(Bound(s).right, s.agents.Keys, s.xs[k], Early(s, k), s.i2x[k]);
    MoveXapps(s, k, HeardXapp(s.xs[k], m), t);
    RecvRequest(s, k, m, t, i);
    RecvViews(s, k, m, t, i);
  }

  lemma ExpectedNoAbort(s: Sys, k: Sock)
    requires k in s.xs && k in s.i2x && s.i2x[k] != [] && TimerOk(s.xs[k])
    requires var m := s.i2x[k][0];
             && m.ric.req in s.xs[k].procs
             && (Closes(m.kind).Some? ==> s.xs[k].call == Waiting(Closes(m.kind).value, m.ric))
             && !Refused(m)
    ensures DoXappRecv(s, k) != Abort
  {
    var m := s.i2x[k][0];
    if Closes(m.kind).Some? {
      CoarseIsExact(s.xs[k], Closes(m.kind).value, m.ric);
    }
  }

  lemma RecvNoAbort(s: Sys, k: Sock)
    requires Wf(s) && XappsOk(s) && ViewsOk(s)
    requires forall m | m in Get(s.i2x, k) :: !Refused(m)
    ensures DoXappRecv(s, k) != Abort
  {
    if k in s.xs && Get(s.i2x, k) != [] {
      var i := Arrives(s, k);
      Expected(s, k, i);
      ExpectedNoAbort(s, k);
    }
  }

  // ---------------------------------------------------------------- the call returns

  function ReturnedXapp(x: XappState): XappState
    requires x.call.Signalled?
  {
    if x.call.kind == Subscribe then x.(call := NoCall)
    else x.(call := NoCall, procs := x.procs - {Trunc16(x.call.ric.req)})
  }

  lemma ReturnState(s: Sys, k: Sock, t: Sys)
    requires DoXappReturn(s, k) == Ok(t)
    ensures k in s.xs && s.xs[k].call.Signalled?
    ensures t == s.(xs := s.xs[k := ReturnedXapp(s.xs[k])])
  {
  }

  /** Nothing but the state of the xApp changes. */
  lemma StateMoves(s: Sys, k: Sock, x: XappState, t: Sys)
    requires k in s.xs && k in s.x2i && k in s.i2x && x.id == s.xs[k].id && t == s.(xs := s.xs[k := x])
    ensures Moves(s, k, x, t)
  {
    Same(s.x2i, k);
    Same(s.i2x, k);
  }

  lemma ReturnMoves(s: Sys, k: Sock, t: Sys)
    requires DoXappReturn(s, k) == Ok(t) && k in s.x2i && k in s.i2x
    ensures k in s.xs && s.xs[k].call.Signalled?
    ensures Moves(s, k, ReturnedXapp(s.xs[k]), t)
    ensures t.x2i == s.x2i && t.i2x == s.i2x && t.received == s.received
  {
    ReturnState(s, k, t);
    StateMoves(s, k, ReturnedXapp(s.xs[k]), t);
  }

  lemma ReturnXapp(right: map<XappRicId, NodeReq>, nodes: set<NodeId>, x: XappState, early: seq<E42Req>,
                   deliver: seq<E2Ans>)
    requires XappOk(right, nodes, x, early, deliver) && x.call.Signalled?
    ensures XappOk(right, nodes, ReturnedXapp(x), early, deliver)
    ensures XappRicId(x.call.ric, x.id) in right && early == []
  {
    var y := ReturnedXapp(x);
    forall r | r in y.procs ensures ProcOk(right, y, r) {
      assert ProcOk(right, x, r);
    }
    forall q | q in right ensures GeneratedOk(y, q) {
      assert GeneratedOk(x, q);
    }
  }

  lemma ReturnRequest(s: Sys, k: Sock, t: Sys, i: U16)
    requires k in s.xs && s.xs[k].call.Signalled? && Moves(s, k, ReturnedXapp(s.xs[k]), t) && Bound(t) == Bound(s)
    requires t.i2x == s.i2x && t.received == s.received
    requires RequestOk(s, i) && Home(s, k)
    requires Bound(s).left[i].who == XappRicId(s.xs[k].call.ric, s.xs[k].id)
    requires s.xs[k].call.ric.req < TWO_16
    ensures RequestOk(t, i)
  {
    MoveOwn(s, k, ReturnedXapp(s.xs[k]), t, i);
    Returning(ViewOf(s, i));
    assert ViewOf(t, i) == Returned(ViewOf(s, i));
  }

  lemma ReturnSilent(s: Sys, k: Sock, t: Sys, i: U16, j: U16)
    requires k in s.xs && s.xs[k].call.Signalled? && Moves(s, k, ReturnedXapp(s.xs[k]), t) && Bound(t) == Bound(s)
    requires t.i2x == s.i2x && t.received == s.received
    requires SocksOk(s.xs, s.socks, s.nextXapp) && Bijection(Bound(s).left, Bound(s).right)
    requires i in Bound(s).left && Bound(s).left[i].who == XappRicId(s.xs[k].call.ric, s.xs[k].id)
    requires j in Bound(s).left && j != i
    requires GeneratedOk(s.xs[k], Bound(s).left[i].who) && GeneratedOk(s.xs[k], Bound(s).left[j].who)
    requires s.xs[k].call.ric.req in s.xs[k].procs
    ensures Silent(s, t, j)
  {
    var y := ReturnedXapp(s.xs[k]);
    if Bound(s).left[j].who.xapp != y.id {
      MoveOther(s, k, y, t, j);
    } else {
      OtherRic(Bound(s), i, j);
      MoveOwnSilent(s, k, y, t, j);
    }
  }

  lemma ReturnViews(s: Sys, k: Sock, t: Sys, i: U16)
    requires k in s.xs && s.xs[k].call.Signalled? && Moves(s, k, ReturnedXapp(s.xs[k]), t) && Bound(t) == Bound(s)
    requires t.i2x == s.i2x && t.received == s.received
    requires SocksOk(s.xs, s.socks, s.nextXapp) && Bijection(Bound(s).left, Bound(s).right)
    requires i in Bound(s).left && Bound(s).left[i].who == XappRicId(s.xs[k].call.ric, s.xs[k].id)
    requires forall q | q in Bound(s).right :: GeneratedOk(s.xs[k], q)
    requires s.xs[k].call.ric.req in s.xs[k].procs
    requires ViewsOk(s) && RequestOk(t, i)
    ensures ViewsOk(t)
  {
    forall j | j in Bound(s).left && j != i ensures Silent(s, t, j) {
      OwnGenerated(s, k, i);
      OwnGenerated(s, k, j);
      ReturnSilent(s, k, t, i, j);
    }
    ChangeView(s, t, i);
  }

  lemma Return(s: Sys, k: Sock, t: Sys)
    requires Inv(s) && DoXappReturn(s, k) == Ok(t)
    ensures Inv(t)
  {
    ChannelKeys(s, k);
    ReturnMoves(s, k, t);
    var y := ReturnedXapp(s.xs[k]);
    assert XappOk(Bound(s).right, s.agents.Keys, s.xs[k], Early(s, k), Get(s.i2x, k));
    ReturnXapp(Bound(s).right, s.agents.Keys, s.xs[k], Early(s, k), s.i2x[k]);
    MoveBound(s, k, y, t);
    MoveWf(s, k, y, t);
    KeepNodes(s, t);
    MoveXapps(s, k, y, t);
    var i := OwnRequest(s, k, s.xs[k].call.ric);
    ReturnRequest(s, k, t, i);
    ReturnViews(s, k, t, i);
  }

  lemma ReturnNoAbort(s: Sys, k: Sock)
    requires XappsOk(s)
    ensures DoXappReturn(s, k) != Abort
  {
    if k in s.xs && s.xs[k].call.Signalled? {
      assert XappOk(Bound(s).right, s.agents.Keys, s.xs[k], Early(s, k), Get(s.i2x, k));
      assert CallOk(s.xs[k]);
    }
  }
}
