// The E2 agents keep the invariant, and none of their assertions fails.
module AgentSteps {
  import opened E2ap
  import opened BiMap
  import opened RicTables
  import opened IdMap
  import opened XappTables
  import opened AgentTables
  import opened Protocol
  import opened Invariant
  import opened Frames
  import opened RequestLife

  // ---------------------------------------------------------------- a request

  /** The agent on `n` takes request `m`, becomes `a` and answers `k`. */
  ghost predicate Handles(s: Sys, n: NodeId, m: E2Req, k: AnsKind, a: AgentState, t: Sys) {
    && n in s.agents && n in s.r2a && n in s.a2r
    && s.r2a[n] != [] && s.r2a[n][0] == m
    && Fits(Bound(s).left, n, m.ric)
    && (forall ric | ric != m.ric :: ric in a.ind.right <==> ric in s.agents[n].ind.right)
    && t == s.(r2a := s.r2a[n := s.r2a[n][1..]], agents := s.agents[n := a],
               a2r := s.a2r[n := s.a2r[n] + [E2Ans(k, m.ric)]],
               emitted := s.emitted[m.ric.req := Get(s.emitted, m.ric.req) + [k]])
  }

  lemma HeadFits(s: Sys, n: NodeId)
    requires Wf(s) && NodesOk(s) && n in s.agents && Get(s.r2a, n) != []
    ensures n in s.r2a && n in s.a2r && Fits(Bound(s).left, n, s.r2a[n][0].ric)
    ensures NodeOk(Bound(s).left, n, s.agents[n], s.r2a[n], s.a2r[n])
  {
    assert n in s.r2a.Keys && n in s.a2r.Keys;
    assert NodeOk(Bound(s).left, n, s.agents[n], Get(s.r2a, n), Get(s.a2r, n));
    assert s.r2a[n][0] in s.r2a[n];
  }

  lemma HandleBound(s: Sys, n: NodeId, m: E2Req, k: AnsKind, a: AgentState, t: Sys)
    requires Handles(s, n, m, k, a, t)
    ensures Bound(t) == Bound(s) && t.agents.Keys == s.agents.Keys
  {
  }

  lemma HandleWf(s: Sys, n: NodeId, m: E2Req, k: AnsKind, a: AgentState, t: Sys)
    requires Wf(s) && Handles(s, n, m, k, a, t) && Bound(t) == Bound(s)
    ensures Wf(t)
  {
    HandleParts(s, n, m, k, a, t);
  }

  lemma HandleParts(s: Sys, n: NodeId, m: E2Req, k: AnsKind, a: AgentState, t: Sys)
    requires Handles(s, n, m, k, a, t) && Bound(t) == Bound(s)
    requires HistoryOk(Bound(s), s.emitted, s.received, s.stray)
    ensures t.agents.Keys == s.agents.Keys && t.r2a.Keys == s.r2a.Keys && t.a2r.Keys == s.a2r.Keys
    ensures HistoryOk(Bound(t), t.emitted, t.received, t.stray)
    ensures t == s.(r2a := t.r2a, agents := t.agents, a2r := t.a2r, emitted := t.emitted)
  {
  }

  lemma HandleNodes(s: Sys, n: NodeId, m: E2Req, k: AnsKind, a: AgentState, t: Sys)
    requires NodesOk(s) && Handles(s, n, m, k, a, t) && Bound(t) == Bound(s)
    requires a.ind.Inverse() && a.ind.left.Keys <= a.epoll
    ensures NodesOk(t)
  {
    forall j | j in t.agents ensures NodeOk(Bound(t).left, j, t.agents[j], Get(t.r2a, j), Get(t.a2r, j)) {
      assert NodeOk(Bound(s).left, j, s.agents[j], Get(s.r2a, j), Get(s.a2r, j));
      if j == n {
        assert forall d | d in t.r2a[n] :: d in s.r2a[n];
      }
    }
  }

  /** What the other requests see of the two channels. */
  lemma HandleChannels(s: Sys, n: NodeId, m: E2Req, k: AnsKind, a: AgentState, t: Sys, j: NodeId, i: int)
    requires Handles(s, n, m, k, a, t) && i != m.ric.req
    ensures Down(Get(t.r2a, j), i) == Down(Get(s.r2a, j), i)
    ensures Up(Get(t.a2r, j), i) == Up(Get(s.a2r, j), i)
    ensures Get(t.emitted, i) == Get(s.emitted, i)
  {
    UpSnoc(s.a2r[n], E2Ans(k, m.ric), i);
  }

  lemma HandleSilent(s: Sys, n: NodeId, m: E2Req, k: AnsKind, a: AgentState, t: Sys, i: U16)
    requires Handles(s, n, m, k, a, t) && Bound(t) == Bound(s) && i != m.ric.req
    ensures Silent(s, t, i)
  {
    if Owned(s, i) {
      var b := Bound(s).left[i];
      var j := s.socks[b.who.xapp];
      assert Early(t, j) == Early(s, j);
      HandleChannels(s, n, m, k, a, t, b.node, i);
    }
  }

  /** What the request that is handled looks like afterwards. */
  lemma HandleView(s: Sys, n: NodeId, m: E2Req, k: AnsKind, a: AgentState, t: Sys)
    requires Handles(s, n, m, k, a, t) && Bound(t) == Bound(s) && Owned(s, m.ric.req)
    ensures Owned(t, m.ric.req)
    ensures var v := ViewOf(s, m.ric.req);
            && v.down != [] && v.down[0] == m.kind
            && v.live == (m.ric in s.agents[n].ind.right)
            && ViewOf(t, m.ric.req) == Emitted(v.(down := v.down[1..], live := m.ric in a.ind.right), k)
  {
    var i := m.ric.req;
    var j := s.socks[Bound(s).left[i].who.xapp];
    assert Early(t, j) == Early(s, j);
    UpSnoc(s.a2r[n], E2Ans(k, m.ric), i);
    HandleQueues(Down(s.r2a[n][1..], i), Unsent(s.ipc, i), m.kind, QueuedAtRic(s.rpc, i), Up(s.a2r[n], i), k);
  }

  lemma HandleQueues(rest: seq<ReqKind>, unsent: seq<ReqKind>, kind: ReqKind, at: seq<AnsKind>, up: seq<AnsKind>,
                     k: AnsKind)
    ensures ([kind] + rest + unsent)[1..] == rest + unsent
    ensures at + (up + [k]) == (at + up) + [k]
  {
  }

  lemma HandleViews(s: Sys, n: NodeId, m: E2Req, k: AnsKind, a: AgentState, t: Sys)
    requires ViewsOk(s) && Handles(s, n, m, k, a, t) && Bound(t) == Bound(s)
    requires RequestOk(t, m.ric.req)
    ensures ViewsOk(t)
  {
    forall i | i in Bound(s).left && i != m.ric.req ensures Silent(s, t, i) {
      HandleSilent(s, n, m, k, a, t, i);
    }
    ChangeView(s, t, m.ric.req);
  }

  /** The rest of the preservation proof, the same for the three kinds of request. */
  lemma Handle(s: Sys, n: NodeId, m: E2Req, k: AnsKind, a: AgentState, t: Sys)
    requires Wf(s) && NodesOk(s) && XappsOk(s) && ViewsOk(s)
    requires Handles(s, n, m, k, a, t) && Bound(t) == Bound(s)
    requires a.ind.Inverse() && a.ind.left.Keys <= a.epoll
    requires RequestOk(t, m.ric.req)
    ensures Inv(t)
  {
    HandleBound(s, n, m, k, a, t);
    HandleWf(s, n, m, k, a, t);
    HandleNodes(s, n, m, k, a, t);
    KeepXapps(s, t);
    HandleViews(s, n, m, k, a, t);
  }

  lemma SubscribeHandles(s: Sys, n: NodeId, fd: Fd, t: Sys)
    requires DoAgentRecv(s, n, fd) == Ok(t) && s.r2a[n][0].kind == Subscribe
    requires n in s.a2r && n in s.agents && Fits(Bound(s).left, n, s.r2a[n][0].ric) && s.agents[n].ind.Inverse()
    requires s.agents[n].ind.left.Keys <= s.agents[n].epoll
    ensures var m := s.r2a[n][0]; var a := AddInd(s.agents[n], fd, m.ric);
            && Handles(s, n, m, SubResponse, a, t) && m.ric in a.ind.right
            && a.ind.Inverse() && a.ind.left.Keys <= a.epoll
  {
  }

  lemma DeleteHandles(s: Sys, n: NodeId, fd: Fd, t: Sys)
    requires DoAgentRecv(s, n, fd) == Ok(t) && s.r2a[n][0].kind == Delete
    requires n in s.a2r && n in s.agents && Fits(Bound(s).left, n, s.r2a[n][0].ric) && s.agents[n].ind.Inverse()
    requires s.agents[n].ind.left.Keys <= s.agents[n].epoll
    ensures var m := s.r2a[n][0];
            && m.ric in s.agents[n].ind.right
            && var a := StopInd(s.agents[n], m.ric);
            && Handles(s, n, m, DelResponse, a, t) && m.ric !in a.ind.right
            && a.ind.Inverse() && a.ind.left.Keys <= a.epoll
  {
    var a := s.agents[n];
    var p := a.ind;
    var q := StopInd(a, s.r2a[n][0].ric).ind;
    forall d | d in q.left ensures q.left[d] in q.right && q.right[q.left[d]] == d {
      assert p.left[d] in p.right;
    }
    forall e | e in q.right ensures q.right[e] in q.left && q.left[q.right[e]] == e {
      assert p.right[e] in p.left;
    }
  }

  lemma ControlHandles(s: Sys, n: NodeId, fd: Fd, t: Sys)
    requires DoAgentRecv(s, n, fd) == Ok(t) && s.r2a[n][0].kind == Control
    requires n in s.a2r && n in s.agents && Fits(Bound(s).left, n, s.r2a[n][0].ric)
    ensures Handles(s, n, s.r2a[n][0], ControlAck, s.agents[n], t)
  {
    assert s.agents[n := s.agents[n]] == s.agents;
  }

  lemma RecvSubscribe(s: Sys, n: NodeId, fd: Fd, t: Sys)
    requires Inv(s) && DoAgentRecv(s, n, fd) == Ok(t) && s.r2a[n][0].kind == Subscribe
    ensures Inv(t)
  {
    HeadFits(s, n);
    SubscribeHandles(s, n, fd, t);
    var m := s.r2a[n][0];
    var a := AddInd(s.agents[n], fd, m.ric);
    HandleBound(s, n, m, SubResponse, a, t);
    assert RequestOk(s, m.ric.req);
    HandleView(s, n, m, SubResponse, a, t);
    AgentSubscribing(ViewOf(s, m.ric.req));
    Handle(s, n, m, SubResponse, a, t);
  }

  lemma RecvDelete(s: Sys, n: NodeId, fd: Fd, t: Sys)
    requires Inv(s) && DoAgentRecv(s, n, fd) == Ok(t) && s.r2a[n][0].kind == Delete
    ensures Inv(t)
  {
    HeadFits(s, n);
    DeleteHandles(s, n, fd, t);
    var m := s.r2a[n][0];
    var a := StopInd(s.agents[n], m.ric);
    HandleBound(s, n, m, DelResponse, a, t);
    assert RequestOk(s, m.ric.req);
    HandleView(s, n, m, DelResponse, a, t);
    AgentDeleting(ViewOf(s, m.ric.req));
    Handle(s, n, m, DelResponse, a, t);
  }

  lemma RecvControl(s: Sys, n: NodeId, fd: Fd, t: Sys)
    requires Inv(s) && DoAgentRecv(s, n, fd) == Ok(t) && s.r2a[n][0].kind == Control
    ensures Inv(t)
  {
    HeadFits(s, n);
    ControlHandles(s, n, fd, t);
    var m := s.r2a[n][0];
    var a := s.agents[n];
    HandleBound(s, n, m, ControlAck, a, t);
    assert RequestOk(s, m.ric.req);
    HandleView(s, n, m, ControlAck, a, t);
    AgentControlling(ViewOf(s, m.ric.req));
    Handle(s, n, m, ControlAck, a, t);
  }

  lemma Recv(s: Sys, n: NodeId, fd: Fd, t: Sys)
    requires Inv(s) && DoAgentRecv(s, n, fd) == Ok(t)
    ensures Inv(t)
  {
    match s.r2a[n][0].kind {
      case Subscribe => RecvSubscribe(s, n, fd, t);
      case Delete => RecvDelete(s, n, fd, t);
      case Control => RecvControl(s, n, fd, t);
    }
  }

  /** The head of the channel, seen as the view of its request. */
  lemma HeadView(s: Sys, n: NodeId)
    requires n in s.r2a && n in s.agents && s.r2a[n] != [] && Fits(Bound(s).left, n, s.r2a[n][0].ric)
    requires Owned(s, s.r2a[n][0].ric.req)
    ensures var m := s.r2a[n][0]; var v := ViewOf(s, m.ric.req);
            v.down != [] && v.down[0] == m.kind && v.live == (m.ric in s.agents[n].ind.right)
  {
  }

  lemma HeadAccepted(s: Sys, n: NodeId)
    requires n in s.r2a && n in s.agents && s.r2a[n] != [] && Fits(Bound(s).left, n, s.r2a[n][0].ric)
    requires RequestOk(s, s.r2a[n][0].ric.req)
    ensures var m := s.r2a[n][0];
            && (m.kind == Subscribe ==> m.ric !in s.agents[n].ind.right)
            && (m.kind == Delete ==> m.ric in s.agents[n].ind.right)
  {
    HeadView(s, n);
    var v := ViewOf(s, s.r2a[n][0].ric.req);
    if v.down[0] == Subscribe {
      AgentSubscribing(v);
    } else if v.down[0] == Delete {
      AgentDeleting(v);
    }
  }

  lemma AcceptedNoAbort(s: Sys, n: NodeId, fd: Fd)
    requires n in s.r2a && n in s.agents && s.r2a[n] != []
    requires s.agents[n].ind.left.Keys <= s.agents[n].epoll
    requires var m := s.r2a[n][0];
             && (m.kind == Subscribe ==> m.ric !in s.agents[n].ind.right)
             && (m.kind == Delete ==> m.ric in s.agents[n].ind.right)
    ensures DoAgentRecv(s, n, fd) != Abort
  {
  }

  /** A subscription is new to the agent, and a delete finds its subscription. */
  lemma RecvNoAbort(s: Sys, n: NodeId, fd: Fd)
    requires Wf(s) && NodesOk(s) && ViewsOk(s)
    ensures DoAgentRecv(s, n, fd) != Abort
  {
    if n in s.agents && Get(s.r2a, n) != [] {
      HeadFits(s, n);
      assert RequestOk(s, s.r2a[n][0].ric.req);
      HeadAccepted(s, n);
      AcceptedNoAbort(s, n, fd);
    }
  }

  // ---------------------------------------------------------------- a timer

  /** The timer of `ric` expires at `n` and the agent sends an indication. */
  ghost predicate Indicates(s: Sys, n: NodeId, ric: RicGenId, k: AnsKind, t: Sys) {
    && n in s.agents && n in s.a2r
    && ric in s.agents[n].ind.right
    && Fits(Bound(s).left, n, ric)
    && t == s.(a2r := s.a2r[n := s.a2r[n] + [E2Ans(k, ric)]],
               emitted := s.emitted[ric.req := Get(s.emitted, ric.req) + [k]])
  }

  lemma TimerIndicates(s: Sys, n: NodeId, fd: Fd, p: int, t: Sys)
    requires Wf(s) && NodesOk(s) && DoAgentTimer(s, n, fd, p) == Ok(t)
    ensures Indicates(s, n, s.agents[n].ind.left[fd], Indication(p), t) && Bound(t) == Bound(s)
  {
    assert n in s.a2r.Keys;
    assert NodeOk(Bound(s).left, n, s.agents[n], Get(s.r2a, n), Get(s.a2r, n));
    assert s.agents[n].ind.left[fd] in s.agents[n].ind.right;
    assert Bound(t) == Bound(s);
  }

  lemma TimerWf(s: Sys, n: NodeId, ric: RicGenId, k: AnsKind, t: Sys)
    requires Wf(s) && Indicates(s, n, ric, k, t) && Bound(t) == Bound(s)
    ensures Wf(t)
  {
    assert t.a2r.Keys == s.a2r.Keys;
  }

  lemma TimerNodes(s: Sys, n: NodeId, ric: RicGenId, k: AnsKind, t: Sys)
    requires NodesOk(s) && Indicates(s, n, ric, k, t) && Bound(t) == Bound(s)
    ensures NodesOk(t)
  {
    forall j | j in t.agents ensures NodeOk(Bound(t).left, j, t.agents[j], Get(t.r2a, j), Get(t.a2r, j)) {
      assert NodeOk(Bound(s).left, j, s.agents[j], Get(s.r2a, j), Get(s.a2r, j));
    }
  }

  lemma TimerSilent(s: Sys, n: NodeId, ric: RicGenId, k: AnsKind, t: Sys, i: U16)
    requires Indicates(s, n, ric, k, t) && Bound(t) == Bound(s) && i != ric.req
    ensures Silent(s, t, i)
  {
    if Owned(s, i) {
      UpSnoc(s.a2r[n], E2Ans(k, ric), i);
      var b := Bound(s).left[i];
      var j := s.socks[b.who.xapp];
      assert Early(t, j) == Early(s, j);
      assert Up(Get(t.a2r, b.node), i) == Up(Get(s.a2r, b.node), i);
    }
  }

  lemma TimerView(s: Sys, n: NodeId, ric: RicGenId, k: AnsKind, t: Sys)
    requires Indicates(s, n, ric, k, t) && Bound(t) == Bound(s) && Owned(s, ric.req)
    ensures ViewOf(s, ric.req).live
    ensures Owned(t, ric.req) && ViewOf(t, ric.req) == Emitted(ViewOf(s, ric.req), k)
  {
    var i := ric.req;
    var j := s.socks[Bound(s).left[i].who.xapp];
    assert Early(t, j) == Early(s, j);
    UpSnoc(s.a2r[n], E2Ans(k, ric), i);
    HandleQueues([], [], Control, QueuedAtRic(s.rpc, i), Up(s.a2r[n], i), k);
  }

  lemma Timer(s: Sys, n: NodeId, fd: Fd, p: int, t: Sys)
    requires Inv(s) && DoAgentTimer(s, n, fd, p) == Ok(t)
    ensures Inv(t)
  {
    TimerIndicates(s, n, fd, p, t);
    var ric := s.agents[n].ind.left[fd];
    TimerWf(s, n, ric, Indication(p), t);
    TimerNodes(s, n, ric, Indication(p), t);
    KeepXapps(s, t);
    assert RequestOk(s, ric.req);
    TimerView(s, n, ric, Indication(p), t);
    Indicating(ViewOf(s, ric.req), p);
    forall i | i in Bound(s).left && i != ric.req ensures Silent(s, t, i) {
      TimerSilent(s, n, ric, Indication(p), t, i);
    }
    ChangeView(s, t, ric.req);
  }

  // ---------------------------------------------------------------- a new node

  lemma SetupWf(s: Sys, n: NodeId, net: Fd, t: Sys)
    requires Wf(s) && DoNodeSetup(s, n, net) == Ok(t)
    ensures Wf(t) && Bound(t) == Bound(s)
  {
    assert Bound(t) == Bound(s);
    assert t.agents.Keys == s.agents.Keys + {n};
    assert t.r2a.Keys == s.r2a.Keys + {n};
    assert t.a2r.Keys == s.a2r.Keys + {n};
  }

  lemma SetupNodes(s: Sys, n: NodeId, net: Fd, t: Sys)
    requires NodesOk(s) && DoNodeSetup(s, n, net) == Ok(t) && Bound(t) == Bound(s)
    ensures NodesOk(t)
  {
    forall j | j in t.agents ensures NodeOk(Bound(t).left, j, t.agents[j], Get(t.r2a, j), Get(t.a2r, j)) {
      if j != n {
        assert NodeOk(Bound(s).left, j, s.agents[j], Get(s.r2a, j), Get(s.a2r, j));
      }
    }
  }

  lemma MoreNodes(right: map<XappRicId, NodeReq>, nodes: set<NodeId>, n: NodeId, x: XappState,
                  early: seq<E42Req>, deliver: seq<E2Ans>)
    requires XappOk(right, nodes, x, early, deliver)
    ensures XappOk(right, nodes + {n}, x, early, deliver)
  {
  }

  lemma SetupXapps(s: Sys, n: NodeId, net: Fd, t: Sys)
    requires XappsOk(s) && DoNodeSetup(s, n, net) == Ok(t) && Bound(t) == Bound(s)
    ensures XappsOk(t)
  {
    assert t.agents.Keys == s.agents.Keys + {n};
    forall k | k in t.xs ensures XappOk(Bound(t).right, t.agents.Keys, t.xs[k], Early(t, k), Get(t.i2x, k)) {
      assert Early(t, k) == Early(s, k);
      MoreNodes(Bound(s).right, s.agents.Keys, n, s.xs[k], Early(s, k), Get(s.i2x, k));
    }
  }

  lemma SetupSilent(s: Sys, n: NodeId, net: Fd, t: Sys, i: U16)
    requires DoNodeSetup(s, n, net) == Ok(t) && Bound(t) == Bound(s)
    ensures Silent(s, t, i)
  {
  }

  lemma Setup(s: Sys, n: NodeId, net: Fd, t: Sys)
    requires Inv(s) && DoNodeSetup(s, n, net) == Ok(t)
    ensures Inv(t)
  {
    SetupWf(s, n, net, t);
    SetupNodes(s, n, net, t);
    SetupXapps(s, n, net, t);
    forall i | i in Bound(s).left ensures Silent(s, t, i) {
      SetupSilent(s, n, net, t, i);
    }
    KeepViews(s, t);
  }
}
