// The main results about whole runs of the protocol.
module EndToEnd {
  import opened E2ap
  import opened BiMap
  import opened RicTables
  import opened IdMap
  import opened XappTables
  import opened AgentTables
  import opened Protocol
  import opened Invariant
  import opened RequestLife
  import opened Stability
  import opened Runs
  import XappSteps
  import RicSteps
  import PendSteps

  ghost predicate Reachable(s: Sys) {
    Within(s) && exists steps :: Exec(steps) == Ok(s)
  }

  lemma ReachableFacts(s: Sys)
    requires Reachable(s)
    ensures Inv(s) && Known(s)
  {
    var steps :| Exec(steps) == Ok(s);
    ReachableInv(steps, s);
    ReachableKnown(steps, s);
  }

  // ---------------------------------------------------------------- what one xApp receives

  /** A prefix of SubResponse Indication* DelResponse, or one ControlAck. */
  predicate Shape(e: seq<AnsKind>) {
    || e == []
    || e == [ControlAck]
    || (&& e[0] == SubResponse
        && forall j | 0 < j < |e| :: e[j].Indication? || (e[j] == DelResponse && j == |e| - 1))
  }

  lemma ShapeOfPrefix(e: seq<AnsKind>, n: nat)
    requires n <= |e| && (e == [] || Opened(e) || Closed(e) || e == [ControlAck])
    ensures Shape(e[..n])
  {
    if Opened(e) {
      assert forall j | 0 < j < |e| :: e[j] == e[1..][j - 1];
    } else if Closed(e) {
      var f := e[..|e| - 1];
      assert forall j | 0 < j < |f| :: e[j] == f[1..][j - 1];
    }
  }

  lemma ReceivedShape(v: View)
    requires ViewOk(v)
    ensures Shape(v.received)
  {
    assert v.received == v.emitted[..|v.received|];
    ShapeOfPrefix(v.emitted, |v.received|);
  }

  /** On every run, what an xApp has received under one request number has this
      shape, and no indication came when its procedure was not in the registry. */
  lemma TraceShape(s: Sys, q: XappRicId)
    requires Reachable(s) && q in s.received
    ensures Shape(s.received[q]) && !s.stray
    ensures forall p | p in s.received && p.xapp == q.xapp && p.ric.req == q.ric.req :: p == q
  {
    ReachableFacts(s);
    OneNumberNow(s);
    var i := Bound(s).right[q].req;
    assert Bijection(Bound(s).left, Bound(s).right);
    assert RequestOk(s, i);
    assert ViewOf(s, i).received == s.received[q];
    ReceivedShape(ViewOf(s, i));
  }

  /** The ids that are bound for one xApp differ in their numbers. */
  ghost predicate OneNumber(right: map<XappRicId, NodeReq>) {
    forall p, q | p in right && q in right && p.xapp == q.xapp && p.ric.req == q.ric.req :: p == q
  }

  lemma DrawOneNumber(s: Sys, k: Sock, fd: Fd, kind: ReqKind, at: NodeReq, who: XappRicId, t: Sys)
    requires PendSteps.Draws(s, k, fd, kind, at, who, t) && OneNumber(s.ids.right)
    requires CallOk(s.xs[k]) && forall q | q in s.ids.right :: GeneratedOk(s.xs[k], q)
    ensures OneNumber(Bound(t).right)
  {
    forall q | q in s.ids.right && q.xapp == who.xapp ensures q.ric.req != who.ric.req {
      assert GeneratedOk(s.xs[k], q);
    }
  }

  lemma PendOneNumber(s: Sys, fd: Fd, t: Sys)
    requires Wf(s) && XappsOk(s) && s.ipc.ILocked? && DoIappPend(s, fd) == Ok(t) && t.forwarded <= MAX_FORWARDED
    requires OneNumber(Bound(s).right)
    ensures OneNumber(Bound(t).right)
  {
    var k := PendSteps.PendDraws(s, fd, t);
    assert XappOk(Bound(s).right, s.agents.Keys, s.xs[k], Early(s, k), Get(s.i2x, k));
    DrawOneNumber(s, k, fd, t.ipc.kind, t.ipc.at, t.ipc.who, t);
  }

  lemma StepOneNumber(s: Sys, st: Step, t: Sys)
    requires Wf(s) && XappsOk(s) && OneNumber(Bound(s).right) && Next(s, st) == Ok(t) && Within(t)
    ensures OneNumber(Bound(t).right)
  {
    StepGrows(s, st, t);
    if st.IappPend? {
      PendGrows(s, st.fd, t);
      if s.ipc.ILocked? {
        PendOneNumber(s, st.fd, t);
      }
    }
  }

  lemma {:induction false} ReachableOneNumber(steps: seq<Step>, s: Sys)
    requires Exec(steps) == Ok(s) && Within(s)
    ensures OneNumber(Bound(s).right)
  {
    if steps != [] {
      var front := steps[..|steps| - 1];
      var before := Exec(front).s;
      StepGrows(before, steps[|steps| - 1], s);
      ReachableInv(front, before);
      ReachableOneNumber(front, before);
      StepOneNumber(before, steps[|steps| - 1], s);
    }
  }

  lemma OneNumberNow(s: Sys)
    requires Reachable(s)
    ensures OneNumber(Bound(s).right)
  {
    var steps :| Exec(steps) == Ok(s);
    ReachableOneNumber(steps, s);
  }

  // ---------------------------------------------------------------- agreement at rest

  /** The procedure `key` of the xApp on `k` and the subscription `e` of the agent
      on `n` are two ends of one pair of the id map. */
  ghost predicate Paired(s: Sys, k: Sock, key: U16, n: NodeId, e: RicGenId) {
    && k in s.xs && key in s.xs[k].procs
    && n in s.agents && e in s.agents[n].ind.right && e.req < TWO_16
    && var p := s.xs[k].procs[key];
       var who := XappRicId(RicOf(key, p), s.xs[k].id);
       && who in s.ids.right && s.ids.right[who] == NodeReq(n, e.req)
       && e.req in s.ids.left && s.ids.left[e.req] == Bind(n, who)
       && p.node == n && p.func == e.func && e == RicOf(key, p).(req := e.req)
  }

  /** No call of an xApp is about this request. */
  ghost predicate Settled(s: Sys, i: U16) {
    Owned(s, i) && ViewOf(s, i).call == Elsewhere
  }

  lemma SettledAgrees(v: View)
    requires ViewOk(v) && v.call == Elsewhere
    ensures v.active <==> v.live
    ensures v.received != [] && !v.early && v.down == []
    ensures !v.live ==> v.received == v.emitted && !v.pSub && !v.pDel && !v.pCtl
  {
  }

  /** A settled request is in the id map proper. */
  lemma SettledInMap(s: Sys, i: U16)
    requires Reachable(s) && i in Bound(s).left && Settled(s, i)
    ensures var who := Bound(s).left[i].who;
            who in s.ids.right && s.ids.right[who] == NodeReq(Bound(s).left[i].node, i)
    ensures i in s.ids.left && s.ids.left[i] == Bound(s).left[i]
  {
    ReachableFacts(s);
    assert RequestOk(s, i);
    SettledAgrees(ViewOf(s, i));
    assert Bound(s).left[i].who in s.received;
    BoundInMap(s, i);
  }

  lemma BoundInMap(s: Sys, i: U16)
    requires Bijection(Bound(s).left, Bound(s).right) && AddOk(s.ids, s.ipc)
    requires i in Bound(s).left && Bound(s).left[i].who in s.ids.right
    ensures s.ids.right[Bound(s).left[i].who] == NodeReq(Bound(s).left[i].node, i)
    ensures i in s.ids.left && s.ids.left[i] == Bound(s).left[i]
  {
    var who := Bound(s).left[i].who;
    assert Bound(s).right[who] == NodeReq(Bound(s).left[i].node, i);
    assert Bound(s).right[who] == s.ids.right[who];
  }

  /** Every registered procedure that no call is about has its subscription ... */
  lemma ProcedureHasSubscription(s: Sys, k: Sock, key: U16) returns (n: NodeId, e: RicGenId)
    requires Reachable(s) && k in s.xs && key in s.xs[k].procs
    requires s.xs[k].call == NoCall
    ensures Paired(s, k, key, n, e)
  {
    ReachableFacts(s);
    var x := s.xs[k];
    var p := x.procs[key];
    var who := XappRicId(RicOf(key, p), x.id);
    assert XappOk(Bound(s).right, s.agents.Keys, x, Early(s, k), Get(s.i2x, k));
    assert ProcOk(Bound(s).right, x, key);
    var i := Bound(s).right[who].req;
    assert Bijection(Bound(s).left, Bound(s).right);
    assert RequestOk(s, i);
    assert Settled(s, i);
    SettledAgrees(ViewOf(s, i));
    SettledInMap(s, i);
    n, e := p.node, RicOf(key, p).(req := i);
  }

  /** ... and every subscription has its registered procedure. */
  lemma SubscriptionHasProcedure(s: Sys, n: NodeId, e: RicGenId) returns (k: Sock, key: U16)
    requires Reachable(s) && n in s.agents && e in s.agents[n].ind.right
    requires e.req in Bound(s).left ==> Settled(s, e.req)
    ensures Paired(s, k, key, n, e)
  {
    ReachableFacts(s);
    SubscriptionFits(s, n, e);
    var i := e.req;
    var who := Bound(s).left[i].who;
    assert RequestOk(s, i);
    SettledAgrees(ViewOf(s, i));
    SettledInMap(s, i);
    k := s.socks[who.xapp];
    key := who.ric.req;
    assert SockOk(s.xs, s.socks, who.xapp);
    ActiveIsRegistered(s, k, who);
  }

  lemma SubscriptionFits(s: Sys, n: NodeId, e: RicGenId)
    requires NodesOk(s) && n in s.agents && e in s.agents[n].ind.right
    ensures Fits(Bound(s).left, n, e)
  {
    assert NodeOk(Bound(s).left, n, s.agents[n], Get(s.r2a, n), Get(s.a2r, n));
  }

  lemma ActiveIsRegistered(s: Sys, k: Sock, who: XappRicId)
    requires XappsOk(s) && k in s.xs && s.xs[k].id == who.xapp && who in Bound(s).right
    requires who.ric.req in s.xs[k].procs
    ensures who.ric == RicOf(who.ric.req, s.xs[k].procs[who.ric.req])
    ensures s.xs[k].procs[who.ric.req].node == Bound(s).right[who].node
  {
    assert XappOk(Bound(s).right, s.agents.Keys, s.xs[k], Early(s, k), Get(s.i2x, k));
    assert GeneratedOk(s.xs[k], who);
    assert ProcOk(Bound(s).right, s.xs[k], who.ric.req);
  }

  ghost predicate Quiet(s: Sys) {
    forall k | k in s.xs :: s.xs[k].call == NoCall
  }

  lemma QuietSettled(s: Sys, i: U16)
    requires Inv(s) && Quiet(s) && i in Bound(s).left
    ensures Settled(s, i)
  {
    assert RequestOk(s, i);
  }

  /** With no call outstanding the id map restricts to a bijection between the
      procedures of all xApps and the subscriptions of all agents. */
  lemma EndToEndAgreement(s: Sys)
    requires Reachable(s) && Quiet(s)
    ensures forall k, key | k in s.xs && key in s.xs[k].procs :: exists n, e :: Paired(s, k, key, n, e)
    ensures forall n, e | n in s.agents && e in s.agents[n].ind.right :: exists k, key :: Paired(s, k, key, n, e)
  {
    ReachableFacts(s);
    forall k, key | k in s.xs && key in s.xs[k].procs ensures exists n, e :: Paired(s, k, key, n, e) {
      var n, e := ProcedureHasSubscription(s, k, key);
    }
    forall n, e | n in s.agents && e in s.agents[n].ind.right ensures exists k, key :: Paired(s, k, key, n, e) {
      if e.req in Bound(s).left {
        QuietSettled(s, e.req);
      }
      var k, key := SubscriptionHasProcedure(s, n, e);
    }
  }

  /** The pairing is one to one, in every reachable state. */
  lemma PairingIsOneToOne(s: Sys, k: Sock, key: U16, n: NodeId, e: RicGenId, k': Sock, key': U16, n': NodeId,
                          e': RicGenId)
    requires Reachable(s) && Paired(s, k, key, n, e) && Paired(s, k', key', n', e')
    ensures k == k' && key == key' <==> n == n' && e == e'
  {
    ReachableFacts(s);
    assert SocksOk(s.xs, s.socks, s.nextXapp);
  }

  // ---------------------------------------------------------------- outstanding work

  /** The request `ev` is on its way to the agent. */
  ghost predicate OnItsWay(s: Sys, ev: PendEvent) {
    || (s.ipc.IPended? && ev == PendEvent(s.ipc.kind, s.ipc.who.ric.(req := s.ipc.at.req)))
    || (s.ipc.IDelPended? && ev == PendEvent(Delete, s.ipc.ric))
    || (exists n, m :: n in s.agents && m in Get(s.r2a, n) && ev == PendEvent(m.kind, m.ric))
  }

  /** Its answer is on its way back, and the RIC has not handled its timer. */
  ghost predicate AnswerOnItsWay(s: Sys, ev: PendEvent) {
    || (exists n, m :: n in s.agents && m in Get(s.a2r, n) && Closes(m.kind) == Some(ev.kind) && m.ric == ev.ric)
    || (s.rpc.RGot? && Closes(s.rpc.ans.kind) == Some(ev.kind) && s.rpc.ans.ric == ev.ric)
  }

  ghost predicate InFlight(s: Sys, ev: PendEvent) {
    OnItsWay(s, ev) || AnswerOnItsWay(s, ev)
  }

  lemma DownHas(q: seq<E2Req>, i: int, kind: ReqKind)
    ensures kind in Down(q, i) <==> exists m :: m in q && m.ric.req == i && m.kind == kind
  {
    if q != [] {
      DownHas(q[1..], i, kind);
      assert forall m :: m in q <==> m == q[0] || m in q[1..];
    }
  }

  lemma UpHas(q: seq<E2Ans>, i: int, kind: AnsKind)
    ensures kind in Up(q, i) <==> exists m :: m in q && m.ric.req == i && m.kind == kind
  {
    if q != [] {
      UpHas(q[1..], i, kind);
      assert forall m :: m in q <==> m == q[0] || m in q[1..];
    }
  }

  /** The answer that closes a request of this kind. */
  function AnswerOf(kind: ReqKind): AnsKind {
    match kind
    case Subscribe => SubResponse
    case Delete => DelResponse
    case Control => ControlAck
  }

  lemma ClosesAnswer(k: AnsKind, kind: ReqKind)
    ensures Closes(k) == Some(kind) <==> k == AnswerOf(kind)
  {
  }

  /** The same things seen at the node of the request. */
  ghost predicate OnItsWayAt(s: Sys, n: NodeId, ev: PendEvent) {
    ev.kind in Unsent(s.ipc, ev.ric.req) || ev.kind in Down(Get(s.r2a, n), ev.ric.req)
  }

  ghost predicate AnswerOnItsWayAt(s: Sys, n: NodeId, ev: PendEvent) {
    AnswerOf(ev.kind) in Up(Get(s.a2r, n), ev.ric.req) || AnswerOf(ev.kind) in QueuedAtRic(s.rpc, ev.ric.req)
  }

  predicate PendingFlag(v: View, kind: ReqKind) {
    match kind
    case Subscribe => v.pSub
    case Delete => v.pDel
    case Control => v.pCtl
  }

  lemma PendingFlagExact(v: View, kind: ReqKind)
    requires PendingExact(v)
    ensures PendingFlag(v, kind) <==> kind in v.down || AnswerOf(kind) in v.queued
  {
  }

  lemma PendedView(s: Sys, ev: PendEvent)
    requires ev.ric.req < TWO_16 && ev.ric.req in Bound(s).left && ev.ric == E2Id(Bound(s), ev.ric.req)
    requires Owned(s, ev.ric.req)
    ensures PendingFlag(ViewOf(s, ev.ric.req), ev.kind) <==> ev in s.ric.pending.right
  {
    match ev.kind {
      case Subscribe =>
      case Delete =>
      case Control =>
    }
  }

  lemma PendedAtNode(s: Sys, ev: PendEvent)
    requires ev.ric.req < TWO_16 && ev.ric.req in Bound(s).left && ev.ric == E2Id(Bound(s), ev.ric.req)
    requires RequestOk(s, ev.ric.req)
    ensures ev in s.ric.pending.right <==>
            var n := Bound(s).left[ev.ric.req].node; OnItsWayAt(s, n, ev) || AnswerOnItsWayAt(s, n, ev)
  {
    PendedView(s, ev);
    PendingFlagExact(ViewOf(s, ev.ric.req), ev.kind);
  }

  lemma UnsentIs(s: Sys, ev: PendEvent, left: map<U16, Bind>)
    requires ev.ric.req in left && ev.ric == left[ev.ric.req].who.ric.(req := ev.ric.req)
    requires s.ipc.IPended? ==> s.ipc.at.req in left && left[s.ipc.at.req].who == s.ipc.who
    requires s.ipc.IDelPended? ==> Fits(left, s.ipc.node, s.ipc.ric)
    ensures ev.kind in Unsent(s.ipc, ev.ric.req) <==>
            || (s.ipc.IPended? && ev == PendEvent(s.ipc.kind, s.ipc.who.ric.(req := s.ipc.at.req)))
            || (s.ipc.IDelPended? && ev == PendEvent(Delete, s.ipc.ric))
  {
  }

  lemma SentIs(q: seq<E2Req>, n: NodeId, left: map<U16, Bind>, ev: PendEvent)
    requires Fits(left, n, ev.ric) && forall m | m in q :: Fits(left, n, m.ric)
    ensures ev.kind in Down(q, ev.ric.req) <==> E2Req(ev.kind, ev.ric) in q
  {
    DownHas(q, ev.ric.req, ev.kind);
  }

  lemma AnsweredIs(q: seq<E2Ans>, n: NodeId, left: map<U16, Bind>, ev: PendEvent)
    requires Fits(left, n, ev.ric) && forall m | m in q :: Fits(left, n, m.ric)
    ensures AnswerOf(ev.kind) in Up(q, ev.ric.req) <==> E2Ans(AnswerOf(ev.kind), ev.ric) in q
  {
    UpHas(q, ev.ric.req, AnswerOf(ev.kind));
  }

  lemma ReadIs(rpc: RPc, left: map<U16, Bind>, ev: PendEvent)
    requires RpcOk(left, rpc) && ev.ric.req in left && ev.ric == left[ev.ric.req].who.ric.(req := ev.ric.req)
    ensures AnswerOf(ev.kind) in QueuedAtRic(rpc, ev.ric.req)
            <==> rpc.RGot? && rpc.ans == E2Ans(AnswerOf(ev.kind), ev.ric)
  {
  }

  lemma UnsentBound(s: Sys)
    requires Wf(s)
    ensures s.ipc.IPended? ==>
            s.ipc.at.req in Bound(s).left && Bound(s).left[s.ipc.at.req] == Bind(s.ipc.at.node, s.ipc.who)
    ensures s.ipc.IDelPended? ==> Fits(Bound(s).left, s.ipc.node, s.ipc.ric)
    ensures RpcOk(Bound(s).left, s.rpc)
  {
  }

  lemma ChannelFits(s: Sys, n: NodeId)
    requires NodesOk(s) && n in s.agents
    ensures forall m | m in Get(s.r2a, n) :: Fits(Bound(s).left, n, m.ric)
    ensures forall m | m in Get(s.a2r, n) :: Fits(Bound(s).left, n, m.ric)
  {
    assert NodeOk(Bound(s).left, n, s.agents[n], Get(s.r2a, n), Get(s.a2r, n));
  }

  lemma SentAtNode(s: Sys, n: NodeId, ev: PendEvent)
    requires Wf(s) && NodesOk(s) && Fits(Bound(s).left, n, ev.ric) && n in s.agents
    ensures OnItsWayAt(s, n, ev) <==> OnItsWay(s, ev)
  {
    UnsentBound(s);
    UnsentIs(s, ev, Bound(s).left);
    ChannelsFit(s);
    SentIs(Get(s.r2a, n), n, Bound(s).left, ev);
    ElsewhereNot(s, n, ev);
  }

  lemma AnsweredAtNode(s: Sys, n: NodeId, ev: PendEvent)
    requires Wf(s) && NodesOk(s) && Fits(Bound(s).left, n, ev.ric) && n in s.agents
    ensures AnswerOnItsWayAt(s, n, ev) <==> AnswerOnItsWay(s, ev)
  {
    UnsentBound(s);
    ChannelsFit(s);
    AnsweredIs(Get(s.a2r, n), n, Bound(s).left, ev);
    ReadIs(s.rpc, Bound(s).left, ev);
    ElsewhereNot(s, n, ev);
    ClosesAnswer(AnswerOf(ev.kind), ev.kind);
    if s.rpc.RGot? {
      ClosesAnswer(s.rpc.ans.kind, ev.kind);
    }
  }

  lemma ChannelsFit(s: Sys)
    requires NodesOk(s)
    ensures forall j, m | j in s.agents && m in Get(s.r2a, j) :: Fits(Bound(s).left, j, m.ric)
    ensures forall j, m | j in s.agents && m in Get(s.a2r, j) :: Fits(Bound(s).left, j, m.ric)
  {
    forall j | j in s.agents
      ensures forall m | m in Get(s.r2a, j) :: Fits(Bound(s).left, j, m.ric)
      ensures forall m | m in Get(s.a2r, j) :: Fits(Bound(s).left, j, m.ric)
    {
      ChannelFits(s, j);
    }
  }

  /** The messages of a request are in the channels of its node only. */
  lemma ElsewhereNot(s: Sys, n: NodeId, ev: PendEvent)
    requires n in s.agents && Fits(Bound(s).left, n, ev.ric)
    requires forall j, m | j in s.agents && m in Get(s.r2a, j) :: Fits(Bound(s).left, j, m.ric)
    requires forall j, m | j in s.agents && m in Get(s.a2r, j) :: Fits(Bound(s).left, j, m.ric)
    ensures (exists j, m :: j in s.agents && m in Get(s.r2a, j) && ev == PendEvent(m.kind, m.ric))
            <==> E2Req(ev.kind, ev.ric) in Get(s.r2a, n)
    ensures (exists j, m :: j in s.agents && m in Get(s.a2r, j) && Closes(m.kind) == Some(ev.kind) && m.ric == ev.ric)
            <==> E2Ans(AnswerOf(ev.kind), ev.ric) in Get(s.a2r, n)
  {
    forall j, m | j in s.agents && m in Get(s.a2r, j) && Closes(m.kind) == Some(ev.kind) && m.ric == ev.ric
      ensures E2Ans(AnswerOf(ev.kind), ev.ric) in Get(s.a2r, n)
    {
      ClosesAnswer(m.kind, ev.kind);
    }
    ClosesAnswer(AnswerOf(ev.kind), ev.kind);
    if E2Ans(AnswerOf(ev.kind), ev.ric) in Get(s.a2r, n) {
      var m := E2Ans(AnswerOf(ev.kind), ev.ric);
      assert n in s.agents && m in Get(s.a2r, n) && Closes(m.kind) == Some(ev.kind) && m.ric == ev.ric;
    }
    if E2Req(ev.kind, ev.ric) in Get(s.r2a, n) {
      var m := E2Req(ev.kind, ev.ric);
      assert n in s.agents && m in Get(s.r2a, n) && ev == PendEvent(m.kind, m.ric);
    }
  }

  lemma InFlightFits(s: Sys, ev: PendEvent) returns (n: NodeId)
    requires Wf(s) && NodesOk(s) && InFlight(s, ev)
    ensures Fits(Bound(s).left, n, ev.ric) && n in s.agents
  {
    UnsentBound(s);
    if s.ipc.IPended? && ev == PendEvent(s.ipc.kind, s.ipc.who.ric.(req := s.ipc.at.req)) {
      n := s.ipc.at.node;
    } else if s.ipc.IDelPended? && ev == PendEvent(Delete, s.ipc.ric) {
      n := s.ipc.node;
    } else if s.rpc.RGot? && s.rpc.ans.ric == ev.ric {
      n := s.rpc.node;
    } else if j, m :| j in s.agents && m in Get(s.r2a, j) && ev == PendEvent(m.kind, m.ric) {
      ChannelFits(s, j);
      n := j;
    } else {
      var j, m :| j in s.agents && m in Get(s.a2r, j) && Closes(m.kind) == Some(ev.kind) && m.ric == ev.ric;
      ChannelFits(s, j);
      n := j;
    }
    NodeKnown(s, n, ev.ric);
  }

  lemma NodeKnown(s: Sys, n: NodeId, ric: RicGenId)
    requires BoundOk(Bound(s), s.forwarded, s.socks, s.agents.Keys) && Fits(Bound(s).left, n, ric)
    ensures n in s.agents
  {
    assert HomeOk(Bound(s).left[ric.req], s.socks, s.agents.Keys);
  }

  /** `pending` holds exactly the requests that were sent and not yet answered,
      and its timers are exactly the live timers, one for each. */
  lemma PendingIsOutstanding(s: Sys, ev: PendEvent)
    requires Reachable(s)
    ensures ev in s.ric.pending.right <==> InFlight(s, ev)
    ensures s.ric.pending.left.Keys == s.ric.timers && s.ric.pending.Inverse()
  {
    ReachableFacts(s);
    if ev in s.ric.pending.right {
      PendedFits(s, ev);
      Outstanding(s, Bound(s).left[ev.ric.req].node, ev);
    } else if InFlight(s, ev) {
      var n := InFlightFits(s, ev);
      Outstanding(s, n, ev);
    }
  }

  lemma PendedFits(s: Sys, ev: PendEvent)
    requires Wf(s) && ev in s.ric.pending.right
    ensures ev.ric.req in Bound(s).left && Fits(Bound(s).left, Bound(s).left[ev.ric.req].node, ev.ric)
    ensures Bound(s).left[ev.ric.req].node in s.agents
  {
    NodeKnown(s, Bound(s).left[ev.ric.req].node, ev.ric);
  }

  lemma Outstanding(s: Sys, n: NodeId, ev: PendEvent)
    requires Wf(s) && NodesOk(s) && ViewsOk(s) && Fits(Bound(s).left, n, ev.ric) && n in s.agents
    ensures ev in s.ric.pending.right <==> InFlight(s, ev)
  {
    assert RequestOk(s, ev.ric.req);
    PendedAtNode(s, ev);
    SentAtNode(s, n, ev);
    AnsweredAtNode(s, n, ev);
  }

  /** An answer removes the entry of its request with its timer, and nothing else;
      an indication removes none. */
  lemma AnswerRemovesOne(s: Sys, t: Sys)
    requires Reachable(s) && s.rpc.RGot? && DoRicStop(s) == Ok(t)
    ensures RemovesOne(s.ric, s.rpc.ans, t.ric)
  {
    ReachableFacts(s);
    RicSteps.StopStops(s, t);
    AnsweredRemoves(Bound(s).left, s.ric, s.rpc.ans);
  }

  ghost predicate RemovesOne(r: RicState, m: E2Ans, u: RicState) {
    && (forall ev :: ev in u.pending.right <==>
          ev in r.pending.right && !(Closes(m.kind) == Some(ev.kind) && ev.ric == m.ric))
    && |u.timers| == |r.timers| - (if Closes(m.kind).Some? then 1 else 0)
  }

  lemma AnsweredRemoves(left: map<U16, Bind>, r: RicState, m: E2Ans)
    requires PendingOk(left, r.pending, r.timers) && RicTables.Awaited(r, m)
    ensures var u := RicTables.Answered(r, m);
            RemovesOne(r, m, u)
  {
    if Closes(m.kind).Some? {
      var ev := PendEvent(Closes(m.kind).value, m.ric);
      assert r.pending.right[ev] in r.pending.left.Keys;
    }
  }

  /** Answers are neither lost, duplicated, reordered nor changed on their way
      through the RIC: those the agent has emitted under a RIC id are those the
      xApp has received under its own id, then those in flight. */
  lemma AnswersConserved(s: Sys, i: U16)
    requires Reachable(s) && i in Bound(s).left
    ensures var b := Bound(s).left[i];
            && b.who.xapp in s.socks
            && Get(s.emitted, i)
               == Get(s.received, b.who)
                + (Deliver(Get(s.i2x, s.socks[b.who.xapp]), b.who.ric) + PassedAtRic(s.rpc, i))
                + (QueuedAtRic(s.rpc, i) + Up(Get(s.a2r, b.node), i))
  {
    ReachableFacts(s);
    assert RequestOk(s, i);
    assert Conserved(ViewOf(s, i));
  }

  // ---------------------------------------------------------------- translation there and back

  /** Every later answer under an id that was drawn for `who` at `at.node` comes
      from that node and reaches the socket of that xApp under its own id. */
  lemma AnswerComesHome(steps: seq<Step>, n: nat, s: Sys)
    requires n <= |steps| && Exec(steps) == Ok(s) && Within(s)
    requires Exec(steps[..n]).Ok? && Exec(steps[..n]).s.ipc.IPended?
    requires s.rpc.RFound? && s.rpc.ans.ric.req == Exec(steps[..n]).s.ipc.at.req
    ensures var at, who := Exec(steps[..n]).s.ipc.at, Exec(steps[..n]).s.ipc.who;
            && s.rpc.node == at.node && s.rpc.who == who
            && s.rpc.ans.ric == who.ric.(req := at.req)
            && who.xapp in s.socks && s.socks[who.xapp] in s.xs && s.xs[s.socks[who.xapp]].id == who.xapp
            && DoRicSend(s) == Ok(s.(i2x := s.i2x[s.socks[who.xapp] := Get(s.i2x, s.socks[who.xapp])
                + [E2Ans(s.rpc.ans.kind, who.ric)]],
                                     rpc := RIdle))
  {
    BoundForGood(steps, n);
    ReachableInv(steps, s);
    var s0 := Exec(steps[..n]).s;
    assert Bound(s0).left[s0.ipc.at.req] == Bind(s0.ipc.at.node, s0.ipc.who);
    SentHome(s, s0.ipc.at, s0.ipc.who);
  }

  lemma SentHome(s: Sys, at: NodeReq, who: XappRicId)
    requires Wf(s) && s.rpc.RFound? && s.rpc.ans.ric.req == at.req
    requires at.req in Bound(s).left && Bound(s).left[at.req] == Bind(at.node, who)
    ensures s.rpc.node == at.node && s.rpc.who == who && s.rpc.ans.ric == who.ric.(req := at.req)
    ensures who.xapp in s.socks && s.socks[who.xapp] in s.xs && s.xs[s.socks[who.xapp]].id == who.xapp
    ensures DoRicSend(s)
            == Ok(s.(i2x := s.i2x[s.socks[who.xapp] := Get(s.i2x, s.socks[who.xapp])
                + [E2Ans(s.rpc.ans.kind, who.ric)]],
                                  rpc := RIdle))
  {
    assert HomeOk(Bound(s).left[at.req], s.socks, s.agents.Keys);
    assert SockOk(s.xs, s.socks, who.xapp);
    assert s.socks[who.xapp] in s.i2x.Keys;
    assert Translate(s.rpc.ans, who).ric == who.ric;
  }

  /** A later delete of `who` is looked up, entered in `pending` and sent under
      the same node and the same RIC id. */
  lemma DeleteReachesSameNode(steps: seq<Step>, n: nat, s: Sys)
    requires n <= |steps| && Exec(steps) == Ok(s) && Within(s)
    requires Exec(steps[..n]).Ok? && Exec(steps[..n]).s.ipc.IPended?
    ensures var at, who := Exec(steps[..n]).s.ipc.at, Exec(steps[..n]).s.ipc.who;
            && (s.ipc.IFound? && s.ipc.req.Who() == who ==> s.ipc.at == at)
            && (s.ipc.IDelPended? && s.ipc.ric.req == at.req ==>
                s.ipc.node == at.node && s.ipc.ric == who.ric.(req := at.req))
            && (forall m, j | j in s.agents && m in Get(s.r2a, j) && m.ric.req == at.req ::
                  j == at.node && m.ric == who.ric.(req := at.req))
  {
    BoundForGood(steps, n);
    ReachableInv(steps, s);
    var s0 := Exec(steps[..n]).s;
    var at, who := s0.ipc.at, s0.ipc.who;
    assert Bound(s0).left[at.req] == Bind(at.node, who);
    DeleteFinds(s, at, who);
    forall m, j | j in s.agents && m in Get(s.r2a, j) && m.ric.req == at.req
      ensures j == at.node && m.ric == who.ric.(req := at.req)
    {
      ChannelFits(s, j);
    }
  }

  lemma DeleteFinds(s: Sys, at: NodeReq, who: XappRicId)
    requires Wf(s) && at.req in Bound(s).left && Bound(s).left[at.req] == Bind(at.node, who)
    ensures s.ipc.IFound? && s.ipc.req.Who() == who ==> s.ipc.at == at
    ensures s.ipc.IDelPended? && s.ipc.ric.req == at.req ==>
            s.ipc.node == at.node && s.ipc.ric == who.ric.(req := at.req)
  {
    assert Bound(s).right[who] == at;
  }

  // ---------------------------------------------------------------- the xApp's timers

  /** The table that compares kinds only, against one keyed by (kind, id). */
  lemma CoarseRefinesExact(s: Sys, k: Sock)
    requires Reachable(s) && k in s.xs
    ensures |s.xs[k].pending| <= 1
    ensures Get(s.i2x, k) != [] && Closes(s.i2x[k][0].kind).Some? ==>
              var m := s.i2x[k][0];
              var at := CoarseIndex(s.xs[k].pending, Closes(m.kind).value);
              at < |s.xs[k].pending| && s.xs[k].pending[at].1 == PendEvent(Closes(m.kind).value, m.ric)
  {
    ReachableFacts(s);
    OneTimer(s, k);
    if Get(s.i2x, k) != [] {
      var i := XappSteps.Arrives(s, k);
      XappSteps.Expected(s, k, i);
      var m := s.i2x[k][0];
      if Closes(m.kind).Some? {
        XappSteps.CoarseIsExact(s.xs[k], Closes(m.kind).value, m.ric);
      }
    }
  }

  lemma OneTimer(s: Sys, k: Sock)
    requires XappsOk(s) && k in s.xs
    ensures TimerOk(s.xs[k])
  {
    assert XappOk(Bound(s).right, s.agents.Keys, s.xs[k], Early(s, k), Get(s.i2x, k));
  }

  // ---------------------------------------------------------------- the exact bound

  /** The id that a request draws; it is 0 exactly after 64515 requests. */
  lemma LastIdIsZero(s: Sys, fd: Fd, t: Sys)
    requires Reachable(s) && s.ipc.ILocked? && DoIappPend(s, fd) == Ok(t)
    ensures t.ipc.IPended? && t.ipc.at.req == Trunc16(FIRST_REQ_ID + s.forwarded)
    ensures t.ipc.at.req == 0 <==> s.forwarded == MAX_FORWARDED
  {
    ReachableFacts(s);
    DrawnId(s, fd, t);
  }

  lemma DrawnId(s: Sys, fd: Fd, t: Sys)
    requires CounterOk(s.forwarded, s.ric.reqId) && s.ipc.ILocked? && DoIappPend(s, fd) == Ok(t)
    ensures t.ipc.IPended? && t.ipc.at.req == Trunc16(FIRST_REQ_ID + s.forwarded)
    ensures t.ipc.at.req == 0 <==> s.forwarded == MAX_FORWARDED
  {
    PendGrows(s, fd, t);
  }

  // ---------------------------------------------------------------- ids of xApps

  /** The check of an xApp's id accepts, besides the ids of registered xApps, the
      next id and those below the first one, and no other. */
  lemma ValidXappIdIff(s: Sys, id: U16)
    requires Reachable(s)
    ensures id <= s.nextXapp <==> id in s.socks || id == s.nextXapp || id < FIRST_XAPP
  {
    ReachableFacts(s);
    RegisteredAre(s, id);
    NumberedIff(id, s.nextXapp);
  }

  lemma RegisteredAre(s: Sys, id: U16)
    requires SocksOk(s.xs, s.socks, s.nextXapp)
    ensures id in s.socks <==> Numbered(id, s.nextXapp)
  {
  }

  lemma NumberedIff(id: U16, nextXapp: int)
    requires FIRST_XAPP <= nextXapp
    ensures id >= FIRST_XAPP ==> (Numbered(id, nextXapp) <==> id < nextXapp)
  {
  }
}
