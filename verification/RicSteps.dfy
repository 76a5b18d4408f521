// The RIC thread keeps the invariant, and none of its assertions fails.
module RicSteps {
  import opened E2ap
  import opened BiMap
  import opened RicTables
  import opened IdMap
  import opened XappTables
  import opened AgentTables
  import opened Protocol
  import opened Invariant
  import opened Frames
  import opened RequestLife

  // ---------------------------------------------------------------- receive

  lemma RecvParts(s: Sys, n: NodeId, t: Sys)
    requires DoRicRecv(s, n) == Ok(t) && Fits(Bound(s).left, n, s.a2r[n][0].ric) && LockOk(s.lock, s.ipc, s.rpc)
    ensures Bound(t) == Bound(s) && t.a2r.Keys == s.a2r.Keys
    ensures LockOk(t.lock, t.ipc, t.rpc) && RpcOk(Bound(t).left, t.rpc)
    ensures t == s.(a2r := t.a2r, rpc := t.rpc)
  {
    assert Bound(t) == Bound(s);
    assert t.a2r.Keys == s.a2r.Keys;
  }

  lemma RecvWf(s: Sys, n: NodeId, t: Sys)
    requires Wf(s) && DoRicRecv(s, n) == Ok(t) && Fits(Bound(s).left, n, s.a2r[n][0].ric)
    ensures Wf(t) && Bound(t) == Bound(s)
  {
    RecvParts(s, n, t);
  }

  lemma RecvNodes(s: Sys, n: NodeId, t: Sys)
    requires NodesOk(s) && DoRicRecv(s, n) == Ok(t) && Bound(t) == Bound(s)
    ensures NodesOk(t)
  {
    forall j | j in t.agents ensures NodeOk(Bound(t).left, j, t.agents[j], Get(t.r2a, j), Get(t.a2r, j)) {
      assert NodeOk(Bound(s).left, j, s.agents[j], Get(s.r2a, j), Get(s.a2r, j));
      if j == n {
        assert forall m | m in t.a2r[n] :: m in s.a2r[n];
      }
    }
  }

  lemma RecvSilent(s: Sys, n: NodeId, t: Sys, i: U16)
    requires DoRicRecv(s, n) == Ok(t) && Bound(t) == Bound(s)
    requires Fits(Bound(s).left, n, s.a2r[n][0].ric)
    ensures Silent(s, t, i)
  {
    if Owned(s, i) {
      var b := Bound(s).left[i];
      assert QueuedAtRic(t.rpc, i) + Up(Get(t.a2r, b.node), i) == QueuedAtRic(s.rpc, i) + Up(Get(s.a2r, b.node), i);
    }
  }

  lemma HeadFits(s: Sys, n: NodeId)
    requires NodesOk(s) && n in s.agents && Get(s.a2r, n) != []
    ensures Fits(Bound(s).left, n, s.a2r[n][0].ric)
  {
    assert NodeOk(Bound(s).left, n, s.agents[n], Get(s.r2a, n), Get(s.a2r, n));
    assert s.a2r[n][0] in Get(s.a2r, n);
  }

  lemma Recv(s: Sys, n: NodeId, t: Sys)
    requires Inv(s) && DoRicRecv(s, n) == Ok(t)
    ensures Inv(t)
  {
    assert n in s.a2r.Keys;
    HeadFits(s, n);
    RecvWf(s, n, t);
    RecvNodes(s, n, t);
    KeepXapps(s, t);
    forall i | i in Bound(s).left ensures Silent(s, t, i) {
      RecvSilent(s, n, t, i);
    }
    KeepViews(s, t);
  }

  // ---------------------------------------------------------------- stop the timer

  lemma StopPendingOk(left: map<U16, Bind>, r: RicState, ev: PendEvent)
    requires PendingOk(left, r.pending, r.timers) && ev in r.pending.right
    ensures PendingOk(left, StopPending(r, ev).pending, StopPending(r, ev).timers)
  {
    var p := r.pending;
    var q := p.ExtractRight(ev);
    forall fd | fd in q.left ensures q.left[fd] in q.right && q.right[q.left[fd]] == fd {
      assert p.left[fd] in p.right;
    }
    forall e | e in q.right ensures q.right[e] in q.left && q.left[q.right[e]] == e {
      assert p.right[e] in p.left;
    }
  }

  /** The RIC thread has handled the timer of answer `m`. */
  ghost predicate Stops(s: Sys, n: NodeId, m: E2Ans, t: Sys) {
    && s.rpc == RGot(n, m)
    && RicTables.Awaited(s.ric, m)
    && t == s.(ric := Answered(s.ric, m), rpc := RStopped(n, m))
  }

  lemma StopStops(s: Sys, t: Sys)
    requires s.rpc.RGot? && DoRicStop(s) == Ok(t)
    ensures Stops(s, s.rpc.node, s.rpc.ans, t)
  {
  }

  lemma StopBound(s: Sys, n: NodeId, m: E2Ans, t: Sys)
    requires Stops(s, n, m, t)
    ensures Bound(t) == Bound(s)
  {
  }

  lemma StopWf(s: Sys, n: NodeId, m: E2Ans, t: Sys)
    requires Wf(s) && Stops(s, n, m, t) && Bound(t) == Bound(s)
    ensures Wf(t)
  {
    if Closes(m.kind).Some? {
      StopPendingOk(Bound(s).left, s.ric, PendEvent(Closes(m.kind).value, m.ric));
    }
  }

  lemma StopSilent(s: Sys, n: NodeId, m: E2Ans, t: Sys, i: U16)
    requires Stops(s, n, m, t) && Bound(t) == Bound(s) && i != m.ric.req
    ensures Silent(s, t, i)
  {
  }

  lemma StopPassed(d: seq<AnsKind>, k: AnsKind, up: seq<AnsKind>)
    ensures d + [k] == d + [] + [k] && ([k] + up)[1..] == up
  {
  }

  lemma StopView(s: Sys, n: NodeId, m: E2Ans, t: Sys)
    requires Stops(s, n, m, t) && Bound(t) == Bound(s) && m.ric.req in Bound(s).left && Owned(s, m.ric.req)
    requires m.ric == E2Id(Bound(s), m.ric.req)
    ensures Owned(t, m.ric.req) && ViewOf(s, m.ric.req).queued != []
    ensures ViewOf(t, m.ric.req) == Stopped(ViewOf(s, m.ric.req))
  {
    var i := m.ric.req;
    var b := Bound(s).left[i];
    StopPassed(Deliver(Get(s.i2x, s.socks[b.who.xapp]), b.who.ric), m.kind, Up(Get(s.a2r, b.node), i));
  }

  lemma StopRequest(s: Sys, n: NodeId, m: E2Ans, t: Sys)
    requires Stops(s, n, m, t) && Bound(t) == Bound(s) && m.ric.req in Bound(s).left && RequestOk(s, m.ric.req)
    requires m.ric == E2Id(Bound(s), m.ric.req)
    ensures RequestOk(t, m.ric.req)
  {
    StopView(s, n, m, t);
    Stopping(ViewOf(s, m.ric.req));
  }

  lemma Stop(s: Sys, t: Sys)
    requires Inv(s) && DoRicStop(s) == Ok(t)
    ensures Inv(t)
  {
    assert s.rpc.RGot?;
    var n, m := s.rpc.node, s.rpc.ans;
    StopStops(s, t);
    StopBound(s, n, m, t);
    StopWf(s, n, m, t);
    KeepNodes(s, t);
    KeepXapps(s, t);
    assert Fits(Bound(s).left, n, m.ric);
    assert RequestOk(s, m.ric.req);
    StopRequest(s, n, m, t);
    forall i | i in Bound(s).left && i != m.ric.req ensures Silent(s, t, i) {
      StopSilent(s, n, m, t, i);
    }
    ChangeView(s, t, m.ric.req);
  }

  lemma StopHasEntry(s: Sys, n: NodeId, m: E2Ans)
    requires s.rpc == RGot(n, m) && m.ric.req in Bound(s).left && RequestOk(s, m.ric.req)
    requires m.ric == E2Id(Bound(s), m.ric.req)
    ensures Closes(m.kind).Some? ==> PendEvent(Closes(m.kind).value, m.ric) in s.ric.pending.right
  {
    var v := ViewOf(s, m.ric.req);
    assert v.queued[0] == m.kind;
    Stopping(v);
  }

  lemma StopAwaited(s: Sys)
    requires RpcOk(Bound(s).left, s.rpc) && ViewsOk(s) && s.rpc.RGot?
    ensures RicTables.Awaited(s.ric, s.rpc.ans)
  {
    var m := s.rpc.ans;
    assert Fits(Bound(s).left, s.rpc.node, m.ric);
    assert RequestOk(s, m.ric.req);
    StopHasEntry(s, s.rpc.node, m);
  }

  lemma StopFails(s: Sys)
    requires s.rpc.RGot? ==> RicTables.Awaited(s.ric, s.rpc.ans)
    ensures DoRicStop(s) == Abort <==> s.rpc.RGot? && Refused(s.rpc.ans)
  {
  }

  /** Stopping the timer never misses its entry: the handler of an answer fails
      on indications of the refused type alone. */
  lemma StopAbort(s: Sys)
    requires Inv(s)
    ensures DoRicStop(s) == Abort <==> s.rpc.RGot? && Refused(s.rpc.ans)
    ensures s.rpc.RGot? ==> RicTables.Awaited(s.ric, s.rpc.ans)
  {
    if s.rpc.RGot? {
      StopAwaited(s);
    }
    StopFails(s);
  }

  // ---------------------------------------------------------------- lock and find

  lemma LockWf(s: Sys, t: Sys)
    requires Wf(s) && DoRicLock(s) == Ok(t)
    ensures Wf(t) && Bound(t) == Bound(s)
  {
    assert Bound(t) == Bound(s);
  }

  lemma LockSilent(s: Sys, t: Sys, i: U16)
    requires DoRicLock(s) == Ok(t) && Bound(t) == Bound(s)
    ensures Silent(s, t, i)
  {
  }

  lemma Lock(s: Sys, t: Sys)
    requires Inv(s) && DoRicLock(s) == Ok(t)
    ensures Inv(t)
  {
    LockWf(s, t);
    KeepNodes(s, t);
    KeepXapps(s, t);
    forall i | i in Bound(s).left ensures Silent(s, t, i) {
      LockSilent(s, t, i);
    }
    KeepViews(s, t);
  }

  /** The lookup gives what the id of the answer is bound to. */
  ghost predicate Finds(s: Sys, n: NodeId, m: E2Ans, t: Sys) {
    && s.rpc == RLocked(n, m)
    && Trunc16(m.ric.req) in s.ids.left
    && t == s.(lock := Free, rpc := RFound(n, m, s.ids.left[Trunc16(m.ric.req)].who))
  }

  lemma FindFinds(s: Sys, t: Sys)
    requires DoRicFind(s) == Ok(t)
    ensures s.rpc.RLocked? && Finds(s, s.rpc.node, s.rpc.ans, t)
  {
  }

  lemma FindParts(s: Sys, n: NodeId, m: E2Ans, t: Sys)
    requires Finds(s, n, m, t) && LockOk(s.lock, s.ipc, s.rpc) && RpcOk(Bound(s).left, s.rpc)
    ensures Bound(t) == Bound(s) && LockOk(t.lock, t.ipc, t.rpc) && RpcOk(Bound(t).left, t.rpc)
  {
  }

  lemma FindWf(s: Sys, t: Sys)
    requires Wf(s) && DoRicFind(s) == Ok(t)
    ensures Wf(t) && Bound(t) == Bound(s)
  {
    FindFinds(s, t);
    FindParts(s, s.rpc.node, s.rpc.ans, t);
  }

  lemma FindSilent(s: Sys, n: NodeId, m: E2Ans, t: Sys, i: U16)
    requires Finds(s, n, m, t) && Bound(t) == Bound(s)
    ensures Silent(s, t, i)
  {
  }

  lemma Find(s: Sys, t: Sys)
    requires Inv(s) && DoRicFind(s) == Ok(t)
    ensures Inv(t)
  {
    FindWf(s, t);
    FindFinds(s, t);
    KeepNodes(s, t);
    KeepXapps(s, t);
    forall i | i in Bound(s).left ensures Silent(s, t, i) {
      FindSilent(s, s.rpc.node, s.rpc.ans, t, i);
    }
    KeepViews(s, t);
  }

  lemma LockedFits(s: Sys)
    requires s.rpc.RLocked? && LockOk(s.lock, s.ipc, s.rpc) && RpcOk(Bound(s).left, s.rpc)
    requires BoundOk(Bound(s), s.forwarded, s.socks, s.agents.Keys)
    ensures Fits(s.ids.left, s.rpc.node, s.rpc.ans.ric) && s.rpc.ans.ric.req > 0
  {
    assert Bound(s) == s.ids;
  }

  lemma LookupSucceeds(s: Sys, n: NodeId, m: E2Ans)
    requires s.rpc == RLocked(n, m) && Fits(s.ids.left, n, m.ric) && m.ric.req > 0
    ensures DoRicFind(s) != Abort
  {
  }

  /** The lookup of an answered id succeeds under every interleaving: while the
      RIC thread holds the lock the iApp thread is not between send and insert. */
  lemma FindNoAbort(s: Sys)
    requires Wf(s)
    ensures DoRicFind(s) != Abort
  {
    if s.rpc.RLocked? {
      LockedFits(s);
      LookupSucceeds(s, s.rpc.node, s.rpc.ans);
    }
  }

  // ---------------------------------------------------------------- send

  /** The translated answer reaches the socket of the xApp that made the request. */
  ghost predicate Delivers(s: Sys, n: NodeId, m: E2Ans, who: XappRicId, k: Sock, t: Sys) {
    && s.rpc == RFound(n, m, who)
    && who.xapp in s.socks && k == s.socks[who.xapp] && k in s.i2x && k in s.xs && s.xs[k].id == who.xapp
    && m.ric.req in Bound(s).left && Bound(s).left[m.ric.req].who == who
    && Translate(m, who) == E2Ans(m.kind, who.ric)
    && t == s.(i2x := s.i2x[k := s.i2x[k] + [E2Ans(m.kind, who.ric)]], rpc := RIdle)
    && Bound(t) == Bound(s)
  }

  lemma TranslateRestores(m: E2Ans, who: XappRicId)
    requires m.ric == who.ric.(req := m.ric.req)
    ensures Translate(m, who) == E2Ans(m.kind, who.ric)
  {
  }

  lemma RouteHome(s: Sys)
    requires Wf(s) && s.rpc.RFound?
    ensures var m, who := s.rpc.ans, s.rpc.who;
            && m.ric.req in Bound(s).left && Bound(s).left[m.ric.req].who == who
            && m.ric == who.ric.(req := m.ric.req)
            && who.xapp in s.socks && s.socks[who.xapp] in s.i2x && s.socks[who.xapp] in s.xs
            && s.xs[s.socks[who.xapp]].id == who.xapp
  {
    var m, who := s.rpc.ans, s.rpc.who;
    assert HomeOk(Bound(s).left[m.ric.req], s.socks, s.agents.Keys);
    assert SockOk(s.xs, s.socks, who.xapp);
    assert s.socks[who.xapp] in s.xs.Keys;
  }

  lemma SendDelivers(s: Sys, t: Sys)
    requires Wf(s) && s.rpc.RFound? && DoRicSend(s) == Ok(t)
    ensures s.rpc.who.xapp in s.socks
    ensures Delivers(s, s.rpc.node, s.rpc.ans, s.rpc.who, s.socks[s.rpc.who.xapp], t)
  {
    RouteHome(s);
    TranslateRestores(s.rpc.ans, s.rpc.who);
    assert Bound(t) == Bound(s);
  }

  lemma SendWf(s: Sys, n: NodeId, m: E2Ans, who: XappRicId, k: Sock, t: Sys)
    requires Wf(s) && Delivers(s, n, m, who, k, t)
    ensures Wf(t)
  {
    assert t.i2x.Keys == s.i2x.Keys;
  }

  lemma SendXapps(s: Sys, n: NodeId, m: E2Ans, who: XappRicId, k: Sock, t: Sys)
    requires XappsOk(s) && Delivers(s, n, m, who, k, t) && Bijection(Bound(s).left, Bound(s).right)
    ensures XappsOk(t)
  {
    forall j | j in t.xs ensures XappOk(Bound(t).right, t.agents.Keys, t.xs[j], Early(t, j), Get(t.i2x, j)) {
      assert Early(t, j) == Early(s, j);
      assert XappOk(Bound(s).right, s.agents.Keys, s.xs[j], Early(s, j), Get(s.i2x, j));
    }
  }

  lemma SendSilent(s: Sys, n: NodeId, m: E2Ans, who: XappRicId, k: Sock, t: Sys, i: U16)
    requires Delivers(s, n, m, who, k, t)
    requires i in Bound(s).left && i != m.ric.req ==> Bound(s).left[i].who != who
    requires Owned(s, i) ==> s.xs[s.socks[Bound(s).left[i].who.xapp]].id == Bound(s).left[i].who.xapp
    ensures Silent(s, t, i)
  {
    if Owned(s, i) {
      var b := Bound(s).left[i];
      var j := s.socks[b.who.xapp];
      assert Early(t, j) == Early(s, j);
      DeliverSnoc(s.i2x[k], E2Ans(m.kind, who.ric), b.who.ric);
      assert Deliver(Get(t.i2x, j), b.who.ric) + PassedAtRic(t.rpc, i)
          == Deliver(Get(s.i2x, j), b.who.ric) + PassedAtRic(s.rpc, i);
    }
  }

  lemma SendSilentOf(s: Sys, n: NodeId, m: E2Ans, who: XappRicId, k: Sock, t: Sys, i: U16)
    requires Delivers(s, n, m, who, k, t) && i in Bound(s).left
    requires SocksOk(s.xs, s.socks, s.nextXapp) && Bijection(Bound(s).left, Bound(s).right)
    ensures Silent(s, t, i)
  {
    assert Bound(s).right[Bound(s).left[i].who].req == i;
    assert Bound(s).right[who].req == m.ric.req;
    if Owned(s, i) {
      assert SockOk(s.xs, s.socks, Bound(s).left[i].who.xapp);
    }
    SendSilent(s, n, m, who, k, t, i);
  }

  lemma Send(s: Sys, t: Sys)
    requires Inv(s) && DoRicSend(s) == Ok(t)
    ensures Inv(t)
  {
    SendDelivers(s, t);
    var n, m, who := s.rpc.node, s.rpc.ans, s.rpc.who;
    var k := s.socks[who.xapp];
    SendWf(s, n, m, who, k, t);
    KeepNodes(s, t);
    SendXapps(s, n, m, who, k, t);
    forall i | i in Bound(s).left ensures Silent(s, t, i) {
      SendSilentOf(s, n, m, who, k, t, i);
    }
    KeepViews(s, t);
  }

  lemma SendNoAbort(s: Sys)
    requires Wf(s)
    ensures DoRicSend(s) != Abort
  {
    if s.rpc.RFound? {
      RouteHome(s);
    }
  }
}
