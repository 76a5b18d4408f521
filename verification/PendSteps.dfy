// The iApp thread enters a request in the pending table and sends it to the node.
module PendSteps {
  import opened E2ap
  import opened BiMap
  import opened RicTables
  import opened IdMap
  import opened XappTables
  import opened AgentTables
  import opened Protocol
  import opened Invariant
  import opened Frames
  import opened RequestLife

  // ---------------------------------------------------------------- a new request

  /** The iApp thread draws the id `at.req` for the request `who` of the xApp on `k`. */
  ghost predicate Draws(s: Sys, k: Sock, fd: Fd, kind: ReqKind, at: NodeReq, who: XappRicId, t: Sys) {
    && kind != Delete
    && k in s.xs && s.xs[k].id == who.xapp
    && s.xs[k].call == Waiting(kind, who.ric)
    && who.ric.req in s.xs[k].procs && s.xs[k].procs[who.ric.req].node == at.node
    && at.node in s.agents
    && who !in s.ids.right && at.req !in s.ids.left
    && at.req == FIRST_REQ_ID + s.forwarded
    && Bound(s) == s.ids
    && Unsents(s)
    && Get(s.x2i, k) == []
    && (forall x: U16 | x != who.xapp :: Held(s.ipc, x) == [])
    && t == s.(ric := AddPending(s.ric.(reqId := s.ric.reqId + 1), fd, PendEvent(kind, who.ric.(req := at.req))),
               forwarded := s.forwarded + 1, ipc := IPended(kind, at, who))
  }

  ghost predicate Unsents(s: Sys) {
    forall i :: Unsent(s.ipc, i) == []
  }

  lemma LockedEarly(s: Sys, k: Sock)
    requires s.ipc.ILocked? && !s.ipc.req.E42Delete?
    requires k in s.xs && s.xs[k].id == s.ipc.req.xapp
    requires XappOk(s.ids.right, s.agents.Keys, s.xs[k], Early(s, k), Get(s.i2x, k))
    ensures s.xs[k].call == Waiting(s.ipc.req.Kind(), s.ipc.req.ric)
    ensures s.ipc.req.Who() !in s.ids.right
    ensures s.ipc.req.ric.req in s.xs[k].procs && s.xs[k].procs[s.ipc.req.ric.req].node == s.ipc.req.node
    ensures Get(s.x2i, k) == []
  {
    assert Early(s, k)[0] == s.ipc.req;
    assert |Early(s, k)| == 1 + |Get(s.x2i, k)|;
  }

  lemma PendFields(s: Sys, fd: Fd, t: Sys)
    requires s.ipc.ILocked? && DoIappPend(s, fd) == Ok(t)
    requires CounterOk(s.forwarded, s.ric.reqId) && t.forwarded <= MAX_FORWARDED
    ensures !s.ipc.req.E42Delete? && t.forwarded == s.forwarded + 1 && fd !in s.ric.timers
    ensures var req := s.ipc.req;
            var at := NodeReq(req.node, FIRST_REQ_ID + s.forwarded);
            t == s.(ric := AddPending(s.ric.(reqId := s.ric.reqId + 1), fd,
                                      PendEvent(req.Kind(), req.ric.(req := at.req))),
                    forwarded := s.forwarded + 1, ipc := IPended(req.Kind(), at, req.Who()))
  {
    assert Trunc16(s.ric.reqId) == FIRST_REQ_ID + s.forwarded;
    assert Increment(s.ric.reqId) == s.ric.reqId + 1;
  }

  lemma PendDraws(s: Sys, fd: Fd, t: Sys) returns (k: Sock)
    requires Wf(s) && s.ipc.ILocked? && DoIappPend(s, fd) == Ok(t) && t.forwarded <= MAX_FORWARDED
    requires XappsOk(s)
    ensures t.ipc.IPended? && Draws(s, k, fd, t.ipc.kind, t.ipc.at, t.ipc.who, t)
  {
    PendFields(s, fd, t);
    k := s.socks[s.ipc.req.xapp];
    assert SockOk(s.xs, s.socks, s.ipc.req.xapp);
    LockedEarly(s, k);
    NotDrawn(Bound(s), s.forwarded, s.socks, s.agents.Keys);
  }

  lemma NotDrawn(b: Ids, forwarded: nat, socks: map<U16, Sock>, nodes: set<NodeId>)
    requires BoundOk(b, forwarded, socks, nodes)
    ensures forall i | i in b.left :: i != FIRST_REQ_ID + forwarded
  {
  }

  lemma DrawBijection(b: Ids, forwarded: nat, at: NodeReq, who: XappRicId, socks: map<U16, Sock>, nodes: set<NodeId>)
    requires BoundOk(b, forwarded, socks, nodes)
    requires at.req !in b.left && who !in b.right && at.req == FIRST_REQ_ID + forwarded
    requires who.xapp in socks && at.node in nodes
    ensures BoundOk(Add(b, at, who), forwarded + 1, socks, nodes)
  {
    var c := Add(b, at, who);
    forall i | i in c.left
      ensures c.left[i].who in c.right && c.right[c.left[i].who] == NodeReq(c.left[i].node, i)
    {
      if i != at.req {
        assert b.left[i].who in b.right;
      }
    }
    forall x | x in c.right
      ensures c.right[x].req in c.left && c.left[c.right[x].req] == Bind(c.right[x].node, x)
    {
      if x != who {
        assert b.right[x].req in b.left;
      }
    }
  }

  lemma DrawPending(b: Ids, p: Bi<Fd, PendEvent>, timers: set<Fd>, fd: Fd, kind: ReqKind, at: NodeReq, who: XappRicId)
    requires PendingOk(b.left, p, timers)
    requires at.req !in b.left && fd !in timers
    ensures PendingOk(Add(b, at, who).left, p.Insert(fd, PendEvent(kind, who.ric.(req := at.req))), timers + {fd})
  {
  }

  lemma DrawRest(s: Sys, k: Sock, fd: Fd, kind: ReqKind, at: NodeReq, who: XappRicId, t: Sys)
    requires Wf(s) && Draws(s, k, fd, kind, at, who, t) && t.forwarded <= MAX_FORWARDED && s.ipc.ILocked?
    ensures LockOk(t.lock, t.ipc, t.rpc)
    ensures CounterOk(t.forwarded, t.ric.reqId)
    ensures AddOk(t.ids, t.ipc)
    ensures IpcOk(Bound(t), t.ipc, t.socks, t.agents.Keys)
    ensures RpcOk(Bound(t).left, t.rpc)
    ensures HistoryOk(Bound(t), t.emitted, t.received, t.stray)
  {
  }

  lemma DrawWf(s: Sys, k: Sock, fd: Fd, kind: ReqKind, at: NodeReq, who: XappRicId, t: Sys)
    requires Wf(s) && Draws(s, k, fd, kind, at, who, t) && t.forwarded <= MAX_FORWARDED && s.ipc.ILocked?
    requires fd !in s.ric.timers
    ensures Wf(t)
  {
    DrawBijection(s.ids, s.forwarded, at, who, s.socks, s.agents.Keys);
    DrawPending(s.ids, s.ric.pending, s.ric.timers, fd, kind, at, who);
    DrawRest(s, k, fd, kind, at, who, t);
  }

  lemma NodeMore(b: Ids, at: NodeReq, who: XappRicId, n: NodeId, a: AgentState, down: seq<E2Req>, up: seq<E2Ans>)
    requires NodeOk(b.left, n, a, down, up) && at.req !in b.left
    ensures NodeOk(Add(b, at, who).left, n, a, down, up)
  {
  }

  lemma DrawNodes(s: Sys, k: Sock, fd: Fd, kind: ReqKind, at: NodeReq, who: XappRicId, t: Sys)
    requires NodesOk(s) && Draws(s, k, fd, kind, at, who, t)
    ensures NodesOk(t)
  {
    forall n | n in t.agents ensures NodeOk(Bound(t).left, n, t.agents[n], Get(t.r2a, n), Get(t.a2r, n)) {
      NodeMore(s.ids, at, who, n, s.agents[n], Get(s.r2a, n), Get(s.a2r, n));
    }
  }

  /** The request has left the early stage and is bound. */
  lemma BindXapp(right: map<XappRicId, NodeReq>, nodes: set<NodeId>, x: XappState, early: seq<E42Req>,
                 deliver: seq<E2Ans>, kind: ReqKind, at: NodeReq, who: XappRicId)
    requires XappOk(right, nodes, x, early, deliver)
    requires who.xapp == x.id && who !in right && kind != Delete && x.call == Waiting(kind, who.ric)
    requires who.ric.req in x.procs && x.procs[who.ric.req].node == at.node
    ensures XappOk(right[who := at], nodes, x, [], deliver)
  {
    forall r | r in x.procs ensures ProcOk(right[who := at], x, r) {
      assert ProcOk(right, x, r);
    }
  }

  lemma BindOther(right: map<XappRicId, NodeReq>, nodes: set<NodeId>, x: XappState, early: seq<E42Req>,
                  deliver: seq<E2Ans>, at: NodeReq, who: XappRicId)
    requires XappOk(right, nodes, x, early, deliver)
    requires who.xapp != x.id
    ensures XappOk(right[who := at], nodes, x, early, deliver)
  {
    forall r | r in x.procs ensures ProcOk(right[who := at], x, r) {
      assert ProcOk(right, x, r);
    }
  }

  lemma DrawXapps(s: Sys, k: Sock, fd: Fd, kind: ReqKind, at: NodeReq, who: XappRicId, t: Sys)
    requires XappsOk(s) && SocksOk(s.xs, s.socks, s.nextXapp) && Draws(s, k, fd, kind, at, who, t)
    ensures XappsOk(t)
  {
    forall j | j in t.xs ensures XappOk(Bound(t).right, t.agents.Keys, t.xs[j], Early(t, j), Get(t.i2x, j)) {
      if j == k {
        BindXapp(s.ids.right, s.agents.Keys, s.xs[k], Early(s, k), Get(s.i2x, k), kind, at, who);
        assert Early(t, k) == [];
      } else {
        BindOther(s.ids.right, s.agents.Keys, s.xs[j], Early(s, j), Get(s.i2x, j), at, who);
        assert Early(t, j) == Early(s, j);
      }
    }
  }

  lemma DrawSilent(s: Sys, k: Sock, fd: Fd, kind: ReqKind, at: NodeReq, who: XappRicId, t: Sys, i: U16)
    requires Draws(s, k, fd, kind, at, who, t) && i in s.ids.left && Owned(s, i)
    requires SocksOk(s.xs, s.socks, s.nextXapp)
    ensures Owned(t, i) && ViewOf(t, i) == ViewOf(s, i)
  {
    var j := s.socks[s.ids.left[i].who.xapp];
    assert Bound(t).left[i] == s.ids.left[i];
    if j != k {
      assert s.xs[j].id != s.xs[k].id;
      assert Early(t, j) == Early(s, j);
    }
  }

  // Nothing in the system mentions the new id yet.

  lemma NothingAtNode(left: map<U16, Bind>, n: NodeId, a: AgentState, down: seq<E2Req>, up: seq<E2Ans>, i: U16)
    requires NodeOk(left, n, a, down, up) && i !in left
    ensures Down(down, i) == [] && Up(up, i) == []
    ensures forall ric | ric in a.ind.right :: ric.req != i
  {
    DownNone(down, i);
    UpNone(up, i);
  }

  lemma NothingDelivered(right: map<XappRicId, NodeReq>, nodes: set<NodeId>, x: XappState, early: seq<E42Req>,
                         deliver: seq<E2Ans>, who: XappRicId)
    requires XappOk(right, nodes, x, early, deliver) && who !in right && who.xapp == x.id
    ensures Deliver(deliver, who.ric) == []
  {
    DeliverNone(deliver, who.ric);
  }

  lemma NothingAtRic(left: map<U16, Bind>, rpc: RPc, i: U16)
    requires RpcOk(left, rpc) && i !in left
    ensures PassedAtRic(rpc, i) == [] && QueuedAtRic(rpc, i) == []
  {
  }

  lemma DrawNewView(s: Sys, k: Sock, fd: Fd, kind: ReqKind, at: NodeReq, who: XappRicId, t: Sys)
    requires Draws(s, k, fd, kind, at, who, t)
    requires who.xapp in s.socks && s.socks[who.xapp] == k
    requires Down(Get(s.r2a, at.node), at.req) == [] && Up(Get(s.a2r, at.node), at.req) == []
    requires forall ric | ric in s.agents[at.node].ind.right :: ric.req != at.req
    requires forall e | e in s.ric.pending.right :: e.ric.req != at.req
    requires Deliver(Get(s.i2x, k), who.ric) == []
    requires PassedAtRic(s.rpc, at.req) == [] && QueuedAtRic(s.rpc, at.req) == []
    requires at.req !in s.emitted && who !in s.received
    ensures Owned(t, at.req)
    ensures ViewOf(t, at.req) == View(true, Waits(kind), false, [kind], false,
                                      kind == Subscribe, false, kind == Control, [], [], [], [])
  {
    assert Bound(t).left[at.req] == Bind(at.node, who);
  }

  lemma DrawNew(s: Sys, k: Sock, fd: Fd, kind: ReqKind, at: NodeReq, who: XappRicId, t: Sys)
    requires Wf(s) && NodesOk(s) && XappsOk(s) && Draws(s, k, fd, kind, at, who, t)
    ensures RequestOk(t, at.req)
  {
    NothingAtNode(s.ids.left, at.node, s.agents[at.node], Get(s.r2a, at.node), Get(s.a2r, at.node), at.req);
    NothingDelivered(s.ids.right, s.agents.Keys, s.xs[k], Early(s, k), Get(s.i2x, k), who);
    NothingAtRic(s.ids.left, s.rpc, at.req);
    DrawNewView(s, k, fd, kind, at, who, t);
    Opening(ViewOf(t, at.req), kind);
  }

  lemma DrawViews(s: Sys, k: Sock, fd: Fd, kind: ReqKind, at: NodeReq, who: XappRicId, t: Sys)
    requires ViewsOk(s) && SocksOk(s.xs, s.socks, s.nextXapp) && Draws(s, k, fd, kind, at, who, t)
    requires RequestOk(t, at.req)
    ensures ViewsOk(t)
  {
    forall i | i in Bound(t).left ensures RequestOk(t, i) {
      if i != at.req {
        assert RequestOk(s, i);
        DrawSilent(s, k, fd, kind, at, who, t, i);
        KeepRequest(s, t, i);
      }
    }
  }

  lemma PendNew(s: Sys, fd: Fd, t: Sys)
    requires Inv(s) && s.ipc.ILocked? && DoIappPend(s, fd) == Ok(t) && t.forwarded <= MAX_FORWARDED
    ensures Inv(t)
  {
    var k := PendDraws(s, fd, t);
    var kind, at, who := t.ipc.kind, t.ipc.at, t.ipc.who;
    DrawWf(s, k, fd, kind, at, who, t);
    DrawNodes(s, k, fd, kind, at, who, t);
    DrawXapps(s, k, fd, kind, at, who, t);
    DrawNew(s, k, fd, kind, at, who, t);
    DrawViews(s, k, fd, kind, at, who, t);
  }

  // ---------------------------------------------------------------- a delete

  /** The iApp thread enters the delete of the bound request `who` in the pending table. */
  ghost predicate Ends(s: Sys, k: Sock, fd: Fd, at: NodeReq, who: XappRicId, t: Sys) {
    && k in s.xs && s.xs[k].id == who.xapp
    && s.xs[k].call == Waiting(Delete, who.ric)
    && who in s.ids.right && s.ids.right[who] == at
    && at.req in s.ids.left && s.ids.left[at.req] == Bind(at.node, who)
    && Bound(s) == s.ids
    && Unsents(s)
    && Get(s.x2i, k) == [] && Early(s, k) != []
    && (forall x: U16 | x != who.xapp :: Held(s.ipc, x) == [])
    && t == s.(ric := AddPending(s.ric, fd, PendEvent(Delete, who.ric.(req := at.req))),
               ipc := IDelPended(who.ric.(req := at.req), at.node))
  }

  lemma FoundEarly(s: Sys, k: Sock)
    requires s.ipc.IFound? && s.ipc.req.E42Delete?
    requires k in s.xs && s.xs[k].id == s.ipc.req.xapp
    requires XappOk(s.ids.right, s.agents.Keys, s.xs[k], Early(s, k), Get(s.i2x, k))
    ensures s.xs[k].call == Waiting(Delete, s.ipc.req.ric)
    ensures Get(s.x2i, k) == [] && Early(s, k) != []
  {
    assert Early(s, k)[0] == s.ipc.req;
    assert |Early(s, k)| == 1 + |Get(s.x2i, k)|;
  }

  lemma FoundFacts(s: Sys) returns (k: Sock)
    requires Wf(s) && XappsOk(s) && s.ipc.IFound?
    ensures s.ipc.req.E42Delete? && k in s.xs && s.xs[k].id == s.ipc.req.xapp
    ensures s.ipc.req.xapp in s.socks && s.socks[s.ipc.req.xapp] == k
    ensures s.xs[k].call == Waiting(Delete, s.ipc.req.ric)
    ensures Get(s.x2i, k) == [] && Early(s, k) != []
    ensures s.ipc.req.Who() in s.ids.right && s.ids.right[s.ipc.req.Who()] == s.ipc.at
    ensures s.ipc.at.req in s.ids.left && s.ids.left[s.ipc.at.req] == Bind(s.ipc.at.node, s.ipc.req.Who())
  {
    k := s.socks[s.ipc.req.xapp];
    assert SockOk(s.xs, s.socks, s.ipc.req.xapp);
    FoundEarly(s, k);
    assert Bound(s) == s.ids;
  }

  lemma PendEnds(s: Sys, fd: Fd, t: Sys) returns (k: Sock)
    requires Wf(s) && XappsOk(s) && s.ipc.IFound? && DoIappPend(s, fd) == Ok(t)
    ensures fd !in s.ric.timers && s.ipc.req.xapp in s.socks && s.socks[s.ipc.req.xapp] == k
    ensures Ends(s, k, fd, s.ipc.at, s.ipc.req.Who(), t)
    ensures PendEvent(Delete, s.ipc.req.ric.(req := s.ipc.at.req)) !in s.ric.pending.right
  {
    k := FoundFacts(s);
  }

  lemma EndBound(s: Sys, k: Sock, fd: Fd, at: NodeReq, who: XappRicId, t: Sys)
    requires Ends(s, k, fd, at, who, t)
    ensures Bound(t) == Bound(s)
  {
  }

  lemma EndPending(left: map<U16, Bind>, p: Bi<Fd, PendEvent>, timers: set<Fd>, fd: Fd, ev: PendEvent)
    requires PendingOk(left, p, timers)
    requires fd !in timers && ev !in p.right
    requires ev.ric.req in left && ev.ric == left[ev.ric.req].who.ric.(req := ev.ric.req)
    ensures PendingOk(left, p.Insert(fd, ev), timers + {fd})
  {
  }

  lemma EndWf(s: Sys, k: Sock, fd: Fd, at: NodeReq, who: XappRicId, t: Sys)
    requires Wf(s) && s.ipc.IFound? && Ends(s, k, fd, at, who, t) && Bound(t) == Bound(s)
    requires fd !in s.ric.timers && PendEvent(Delete, who.ric.(req := at.req)) !in s.ric.pending.right
    ensures Wf(t)
  {
    EndPending(s.ids.left, s.ric.pending, s.ric.timers, fd, PendEvent(Delete, who.ric.(req := at.req)));
  }

  /** A delete leaves the early stage. */
  lemma EndXapp(right: map<XappRicId, NodeReq>, nodes: set<NodeId>, x: XappState, early: seq<E42Req>,
                deliver: seq<E2Ans>)
    requires XappOk(right, nodes, x, early, deliver) && x.call.Waiting? && x.call.kind == Delete
    ensures XappOk(right, nodes, x, [], deliver)
  {
  }

  lemma EndXapps(s: Sys, k: Sock, fd: Fd, at: NodeReq, who: XappRicId, t: Sys)
    requires XappsOk(s) && SocksOk(s.xs, s.socks, s.nextXapp) && Ends(s, k, fd, at, who, t) && Bound(t) == Bound(s)
    ensures XappsOk(t)
  {
    forall j | j in t.xs ensures XappOk(Bound(t).right, t.agents.Keys, t.xs[j], Early(t, j), Get(t.i2x, j)) {
      assert XappOk(Bound(s).right, s.agents.Keys, s.xs[j], Early(s, j), Get(s.i2x, j));
      if j == k {
        EndXapp(s.ids.right, s.agents.Keys, s.xs[k], Early(s, k), Get(s.i2x, k));
        assert Early(t, k) == [];
      } else {
        assert s.xs[j].id != s.xs[k].id;
        assert Early(t, j) == Early(s, j);
      }
    }
  }

  lemma EndEarly(s: Sys, k: Sock, fd: Fd, at: NodeReq, who: XappRicId, t: Sys, j: Sock)
    requires Ends(s, k, fd, at, who, t) && j in s.xs && s.xs[j].id != who.xapp
    ensures Early(t, j) == Early(s, j)
  {
  }

  lemma EndSilent(s: Sys, k: Sock, fd: Fd, at: NodeReq, who: XappRicId, t: Sys, i: U16)
    requires Ends(s, k, fd, at, who, t) && Bound(t) == Bound(s)
    requires forall j | j in s.xs && j != k :: s.xs[j].id != who.xapp
    requires i in s.ids.left && s.ids.left[i].who != who
    requires Owned(s, i) ==> s.xs[s.socks[s.ids.left[i].who.xapp]].id == s.ids.left[i].who.xapp
    requires i != at.req
    ensures Silent(s, t, i)
  {
    if Owned(s, i) {
      var j := s.socks[s.ids.left[i].who.xapp];
      if j == k {
        assert CallOf(s.xs[k].call, s.ids.left[i].who.ric) == Elsewhere;
      } else {
        EndEarly(s, k, fd, at, who, t, j);
      }
    }
  }

  lemma EndView(s: Sys, k: Sock, fd: Fd, at: NodeReq, who: XappRicId, t: Sys)
    requires Ends(s, k, fd, at, who, t) && Bound(t) == Bound(s)
    requires Owned(s, at.req) && s.socks[who.xapp] == k
    ensures ViewOf(s, at.req).early
    ensures Owned(t, at.req) && ViewOf(t, at.req) == DeletePended(ViewOf(s, at.req))
  {
    assert Early(t, k) == [];
  }

  lemma EndRequest(s: Sys, k: Sock, fd: Fd, at: NodeReq, who: XappRicId, t: Sys)
    requires Ends(s, k, fd, at, who, t) && Bound(t) == Bound(s)
    requires RequestOk(s, at.req) && s.socks[who.xapp] == k
    ensures RequestOk(t, at.req)
  {
    EndView(s, k, fd, at, who, t);
    DeletePending(ViewOf(s, at.req));
  }

  lemma EndSilentOf(s: Sys, k: Sock, fd: Fd, at: NodeReq, who: XappRicId, t: Sys, i: U16)
    requires Ends(s, k, fd, at, who, t) && Bound(t) == Bound(s)
    requires SocksOk(s.xs, s.socks, s.nextXapp) && Bijection(s.ids.left, s.ids.right)
    requires i in s.ids.left && i != at.req
    ensures Silent(s, t, i)
  {
    assert s.ids.right[s.ids.left[i].who].req == i;
    if Owned(s, i) {
      assert SockOk(s.xs, s.socks, s.ids.left[i].who.xapp);
    }
    EndSilent(s, k, fd, at, who, t, i);
  }

  lemma EndViews(s: Sys, k: Sock, fd: Fd, at: NodeReq, who: XappRicId, t: Sys)
    requires ViewsOk(s) && Ends(s, k, fd, at, who, t) && Bound(t) == Bound(s)
    requires SocksOk(s.xs, s.socks, s.nextXapp) && Bijection(s.ids.left, s.ids.right)
    requires RequestOk(t, at.req)
    ensures ViewsOk(t)
  {
    forall i | i in Bound(s).left && i != at.req ensures Silent(s, t, i) {
      EndSilentOf(s, k, fd, at, who, t, i);
    }
    ChangeView(s, t, at.req);
  }

  lemma PendDelete(s: Sys, fd: Fd, t: Sys)
    requires Inv(s) && s.ipc.IFound? && DoIappPend(s, fd) == Ok(t)
    ensures Inv(t)
  {
    var k := PendEnds(s, fd, t);
    var at, who := s.ipc.at, s.ipc.req.Who();
    EndBound(s, k, fd, at, who, t);
    EndWf(s, k, fd, at, who, t);
    EndNodes(s, k, fd, at, who, t);
    EndXapps(s, k, fd, at, who, t);
    EndRequest(s, k, fd, at, who, t);
    EndViews(s, k, fd, at, who, t);
  }

  lemma EndNodes(s: Sys, k: Sock, fd: Fd, at: NodeReq, who: XappRicId, t: Sys)
    requires NodesOk(s) && Ends(s, k, fd, at, who, t) && Bound(t) == Bound(s)
    ensures NodesOk(t)
  {
    KeepNodes(s, t);
  }

  // ---------------------------------------------------------------- the assertions

  /** The id drawn last before the widths are left is 0: not bound either. */
  lemma DrawnIsNew(b: Ids, forwarded: nat, reqId: int, socks: map<U16, Sock>, nodes: set<NodeId>)
    requires BoundOk(b, forwarded, socks, nodes) && CounterOk(forwarded, reqId)
    ensures Trunc16(reqId) !in b.left
    ensures Trunc16(reqId) == 0 <==> forwarded == MAX_FORWARDED
  {
  }

  lemma PendNewNoAbort(s: Sys, fd: Fd)
    requires Wf(s) && s.ipc.ILocked?
    ensures DoIappPend(s, fd) != Abort
  {
    DrawnIsNew(Bound(s), s.forwarded, s.ric.reqId, s.socks, s.agents.Keys);
    TimersAreKeys(Bound(s).left, s.ric.pending, s.ric.timers);
  }

  lemma EarlyNotPended(s: Sys, k: Sock)
    requires s.ipc.IFound? && Bound(s) == s.ids && RequestOk(s, s.ipc.at.req)
    requires s.ids.left[s.ipc.at.req] == Bind(s.ipc.at.node, s.ipc.req.Who())
    requires s.socks[s.ipc.req.xapp] == k
    requires s.xs[k].call == Waiting(Delete, s.ipc.req.ric) && Early(s, k) != []
    ensures PendEvent(Delete, s.ipc.req.ric.(req := s.ipc.at.req)) !in s.ric.pending.right
  {
    assert ViewOf(s, s.ipc.at.req).early;
    DeletePending(ViewOf(s, s.ipc.at.req));
  }

  lemma PendDeleteNoAbort(s: Sys, fd: Fd)
    requires Wf(s) && XappsOk(s) && ViewsOk(s) && s.ipc.IFound?
    ensures DoIappPend(s, fd) != Abort
  {
    var k := FoundFacts(s);
    assert Bound(s) == s.ids;
    assert RequestOk(s, s.ipc.at.req);
    EarlyNotPended(s, k);
    TimersAreKeys(Bound(s).left, s.ric.pending, s.ric.timers);
    FreshDelete(s, fd);
  }

  lemma FreshDelete(s: Sys, fd: Fd)
    requires s.ipc.IFound? && (forall d :: d in s.ric.timers <==> d in s.ric.pending.left)
    requires PendEvent(Delete, s.ipc.req.ric.(req := s.ipc.at.req)) !in s.ric.pending.right
    ensures DoIappPend(s, fd) != Abort
  {
  }

  lemma TimersAreKeys(left: map<U16, Bind>, p: Bi<Fd, PendEvent>, timers: set<Fd>)
    requires PendingOk(left, p, timers)
    ensures forall fd :: fd in timers <==> fd in p.left
  {
  }

  // ---------------------------------------------------------------- send

  /** The request that was pended is appended to the channel of its node. */
  ghost predicate Sends(s: Sys, m: E2Req, n: NodeId, t: Sys) {
    && Bound(t) == Bound(s)
    && n in s.r2a
    && (|| (s.ipc.IDelPended? && t.ipc == IIdle && m == E2Req(Delete, s.ipc.ric))
        || (s.ipc.IPended? && t.ipc == ISent(s.ipc.at, s.ipc.who)
            && m == E2Req(s.ipc.kind, s.ipc.who.ric.(req := s.ipc.at.req))))
    && t == s.(r2a := s.r2a[n := s.r2a[n] + [m]], ipc := t.ipc)
  }

  lemma SendNew(s: Sys, t: Sys)
    requires s.ipc.IPended? && DoIappSend(s) == Ok(t) && BoundOk(Bound(s), s.forwarded, s.socks, s.agents.Keys)
    ensures var m := E2Req(s.ipc.kind, s.ipc.who.ric.(req := s.ipc.at.req));
            Sends(s, m, s.ipc.at.node, t) && s.ipc.at.node in s.agents && Fits(Bound(s).left, s.ipc.at.node, m.ric)
  {
    assert Bound(s).left[s.ipc.at.req] == Bind(s.ipc.at.node, s.ipc.who);
    assert Bound(t) == Bound(s);
  }

  lemma SendDelete(s: Sys, t: Sys)
    requires s.ipc.IDelPended? && DoIappSend(s) == Ok(t)
    requires BoundOk(Bound(s), s.forwarded, s.socks, s.agents.Keys) && Fits(Bound(s).left, s.ipc.node, s.ipc.ric)
    ensures Sends(s, E2Req(Delete, s.ipc.ric), s.ipc.node, t) && s.ipc.node in s.agents
  {
    assert Bound(t) == Bound(s);
  }

  lemma SendSends(s: Sys, t: Sys) returns (m: E2Req, n: NodeId)
    requires Wf(s) && DoIappSend(s) == Ok(t)
    ensures Sends(s, m, n, t) && n in s.agents && Fits(Bound(s).left, n, m.ric)
  {
    match s.ipc {
      case IPended(kind, at, who) =>
        SendNew(s, t);
        m, n := E2Req(kind, who.ric.(req := at.req)), at.node;
      case IDelPended(ric, node) =>
        SendDelete(s, t);
        m, n := E2Req(Delete, ric), node;
    }
  }

  lemma SendWf(s: Sys, m: E2Req, n: NodeId, t: Sys)
    requires Wf(s) && Sends(s, m, n, t)
    ensures Wf(t)
  {
    assert t.r2a.Keys == s.r2a.Keys;
  }

  lemma SendNodes(s: Sys, m: E2Req, n: NodeId, t: Sys)
    requires NodesOk(s) && Sends(s, m, n, t) && Fits(Bound(s).left, n, m.ric)
    ensures NodesOk(t)
  {
    forall j | j in t.agents ensures NodeOk(Bound(t).left, j, t.agents[j], Get(t.r2a, j), Get(t.a2r, j)) {
      assert NodeOk(Bound(s).left, j, s.agents[j], Get(s.r2a, j), Get(s.a2r, j));
    }
  }

  lemma SendSilent(s: Sys, m: E2Req, n: NodeId, t: Sys, i: U16)
    requires Sends(s, m, n, t) && Fits(Bound(s).left, n, m.ric)
    ensures Silent(s, t, i)
  {
    if Owned(s, i) {
      var b := Bound(s).left[i];
      var k := s.socks[b.who.xapp];
      assert Early(t, k) == Early(s, k);
      DownSnoc(s.r2a[n], m, i);
      assert Down(Get(t.r2a, b.node), i) + Unsent(t.ipc, i) == Down(Get(s.r2a, b.node), i) + Unsent(s.ipc, i);
    }
  }

  lemma Send(s: Sys, t: Sys)
    requires Inv(s) && DoIappSend(s) == Ok(t)
    ensures Inv(t)
  {
    var m, n := SendSends(s, t);
    SendWf(s, m, n, t);
    SendNodes(s, m, n, t);
    KeepXapps(s, t);
    forall i | i in Bound(s).left ensures Silent(s, t, i) {
      SendSilent(s, m, n, t, i);
    }
    KeepViews(s, t);
  }

  lemma SendNoAbort(s: Sys)
    requires Wf(s)
    ensures DoIappSend(s) != Abort
  {
    if s.ipc.IPended? {
      assert Bound(s).left[s.ipc.at.req] == Bind(s.ipc.at.node, s.ipc.who);
    }
  }
}
