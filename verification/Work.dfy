// The work that is left in the system: every internal step but an indication
// makes it less. Requests that open a procedure are counted along the way, and
// the traffic control model is kept track of.
module Work {
  import opened E2ap
  import opened BiMap
  import opened RicTables
  import opened IdMap
  import opened XappTables
  import opened AgentTables
  import opened Protocol
  import opened Totals

  /** The steps that the system takes without a call of an application and
      without the arrival of a node. */
  predicate Internal(st: Step) {
    !st.XappSetup? && !st.NodeSetup? && !st.Report? && !st.RmReport? && !st.ControlCall?
  }

  /** Internal, and not a timer of a subscription: finitely many in a row. */
  predicate Draining(st: Step) {
    Internal(st) && !st.AgentTimer?
  }

  predicate Opening(st: Step) {
    st.Report? || st.ControlCall?
  }

  // ---------------------------------------------------------------- the measure

  function IappWork(pc: IPc): nat {
    match pc
    case IIdle => 0
    case IGot(_) => 13
    case ILocked(_) => 12
    case IPended(_, _, _) => 11
    case ISent(_, _) => 2
    case IAdded => 1
    case IFound(_, _) => 10
    case IDelPended(_, _) => 9
  }

  function RicWork(pc: RPc): nat {
    match pc
    case RIdle => 0
    case RGot(_, _) => 6
    case RStopped(_, _) => 5
    case RLocked(_, _) => 4
    case RFound(_, _, _) => 3
  }

  /** Calls that are signalled and have not returned. */
  function Woken(xs: map<Sock, XappState>): map<Sock, nat> {
    map k | k in xs :: if xs[k].call.Signalled? then 1 else 0
  }

  ghost function Measure(s: Sys): nat {
    14 * Total(Sizes(s.x2i)) + IappWork(s.ipc) + 8 * Total(Sizes(s.r2a)) + 7 * Total(Sizes(s.a2r))
    + RicWork(s.rpc) + 2 * Total(Sizes(s.i2x)) + Total(Woken(s.xs))
  }

  // ---------------------------------------------------------------- opening requests

  function CountOpens(q: seq<E42Req>): nat {
    if q == [] then 0 else (if q[0].E42Delete? then 0 else 1) + CountOpens(q[1..])
  }

  function Opens(x2i: map<Sock, seq<E42Req>>): map<Sock, nat> {
    map k | k in x2i :: CountOpens(x2i[k])
  }

  function IappOpens(pc: IPc): nat {
    match pc
    case IGot(req) => if req.E42Delete? then 0 else 1
    case ILocked(req) => if req.E42Delete? then 0 else 1
    case _ => 0
  }

  /** Requests that wait for a RIC id. */
  ghost function Undrawn(s: Sys): nat {
    Total(Opens(s.x2i)) + IappOpens(s.ipc)
  }

  /** All requests that have been made to open a procedure. */
  ghost function Requested(s: Sys): nat {
    s.forwarded + Undrawn(s)
  }

  lemma CountSnoc(q: seq<E42Req>, r: E42Req)
    ensures CountOpens(q + [r]) == CountOpens(q) + (if r.E42Delete? then 0 else 1)
  {
    if q == [] {
      assert q + [r] == [r];
    } else {
      assert (q + [r])[1..] == q[1..] + [r];
      CountSnoc(q[1..], r);
    }
  }

  lemma OpensSet(m: map<Sock, seq<E42Req>>, k: Sock, q: seq<E42Req>)
    ensures Opens(m[k := q]) == Opens(m)[k := CountOpens(q)]
  {
  }

  lemma OpensPush(m: map<Sock, seq<E42Req>>, k: Sock, r: E42Req)
    requires k in m
    ensures Total(Opens(m[k := m[k] + [r]])) == Total(Opens(m)) + (if r.E42Delete? then 0 else 1)
  {
    CountSnoc(m[k], r);
    OpensSet(m, k, m[k] + [r]);
    TotalSet(Opens(m), k, CountOpens(m[k] + [r]));
  }

  lemma OpensPop(m: map<Sock, seq<E42Req>>, k: Sock)
    requires k in m && m[k] != []
    ensures Total(Opens(m[k := m[k][1..]])) == Total(Opens(m)) - (if m[k][0].E42Delete? then 0 else 1)
  {
    OpensSet(m, k, m[k][1..]);
    TotalSet(Opens(m), k, CountOpens(m[k][1..]));
  }

  // ---------------------------------------------------------------- the traffic control model

  predicate TcRequest(r: E42Req) {
    r.E42Subscribe? && r.ric.func == SM_TC
  }

  predicate TcE2Request(m: E2Req) {
    m.kind == Subscribe && m.ric.func == SM_TC
  }

  predicate IappTcFree(pc: IPc) {
    match pc
    case IGot(req) => !TcRequest(req)
    case ILocked(req) => !TcRequest(req)
    case IPended(kind, _, who) => kind == Subscribe ==> who.ric.func != SM_TC
    case _ => true
  }

  /** No indication that the near-RIC refuses is on its way to it. */
  ghost predicate NoneRefused(s: Sys) {
    && (forall n, m | n in s.a2r && m in s.a2r[n] :: !Refused(m))
    && (s.rpc.RGot? ==> !Refused(s.rpc.ans))
  }

  /** No subscription of the traffic control model anywhere. */
  ghost predicate TcFree(s: Sys) {
    && NoneRefused(s)
    && (forall k, r | k in s.x2i && r in s.x2i[k] :: !TcRequest(r))
    && IappTcFree(s.ipc)
    && (forall n, m | n in s.r2a && m in s.r2a[n] :: !TcE2Request(m))
    && (forall n, ric | n in s.agents && ric in s.agents[n].ind.right :: ric.func != SM_TC)
  }

  // ---------------------------------------------------------------- the calls

  /** What happens to an xApp that makes no new call: a call that opens a
      subscription, and one that has returned, leave the registry alone. */
  predicate CallKept(x: XappState, y: XappState) {
    && y.id == x.id && y.nodes == x.nodes && y.nextKey == x.nextKey
    && (x.call == NoCall ==> y.call == NoCall && y.procs == x.procs)
    && (x.call != NoCall && x.call.kind == Subscribe ==>
          y.procs == x.procs && (y.call == NoCall || y.call.kind == Subscribe))
  }

  ghost predicate CallsKept(s: Sys, t: Sys) {
    && t.xs.Keys == s.xs.Keys && t.agents.Keys == s.agents.Keys && t.nextXapp == s.nextXapp
    && forall k | k in s.xs :: k in t.xs && CallKept(s.xs[k], t.xs[k])
  }

  lemma CallsKeptTransitive(s: Sys, t: Sys, u: Sys)
    requires CallsKept(s, t) && CallsKept(t, u)
    ensures CallsKept(s, u)
  {
    forall k | k in s.xs ensures k in u.xs && CallKept(s.xs[k], u.xs[k]) {
      assert CallKept(s.xs[k], t.xs[k]) && CallKept(t.xs[k], u.xs[k]);
    }
  }

  // ---------------------------------------------------------------- what a step does

  /** Less work, the same number of opening requests, nothing refused that was not. */
  ghost predicate Works(s: Sys, t: Sys) {
    Counts(s, t) && Keeps(s, t) && CallsKept(s, t) && Draws(s, t)
  }

  /** Only a locked opening request draws an id. */
  ghost predicate Draws(s: Sys, t: Sys) {
    && (t.forwarded == s.forwarded || (t.forwarded == s.forwarded + 1 && s.ipc.ILocked? && !s.ipc.req.E42Delete?))
    && (t.ipc.ILocked? ==> t.forwarded == s.forwarded && (t.ipc == s.ipc || s.ipc == IGot(t.ipc.req)))
  }

  ghost predicate Counts(s: Sys, t: Sys) {
    Measure(t) < Measure(s) && Requested(t) == Requested(s)
  }

  ghost predicate Keeps(s: Sys, t: Sys) {
    (NoneRefused(s) ==> NoneRefused(t)) && (TcFree(s) ==> TcFree(t))
  }

  lemma IappRecvState(s: Sys, k: Sock, t: Sys)
    requires DoIappRecv(s, k) == Ok(t)
    ensures s.ipc == IIdle && k in s.x2i && s.x2i[k] != []
    ensures t == s.(x2i := s.x2i[k := s.x2i[k][1..]], ipc := IGot(s.x2i[k][0]))
  {
  }

  lemma IappRecvCounts(s: Sys, k: Sock, t: Sys)
    requires s.ipc == IIdle && k in s.x2i && s.x2i[k] != []
    requires t == s.(x2i := s.x2i[k := s.x2i[k][1..]], ipc := IGot(s.x2i[k][0]))
    ensures Counts(s, t)
  {
    SizesPop(s.x2i, k);
    OpensPop(s.x2i, k);
  }

  lemma IappRecvKeeps(s: Sys, k: Sock, t: Sys)
    requires s.ipc == IIdle && k in s.x2i && s.x2i[k] != []
    requires t == s.(x2i := s.x2i[k := s.x2i[k][1..]], ipc := IGot(s.x2i[k][0]))
    ensures Keeps(s, t)
  {
    assert s.x2i[k][0] in s.x2i[k];
  }

  lemma IappRecvWorks(s: Sys, k: Sock, t: Sys)
    requires DoIappRecv(s, k) == Ok(t)
    ensures Works(s, t)
  {
    IappRecvState(s, k, t);
    IappRecvCounts(s, k, t);
    IappRecvKeeps(s, k, t);
  }

  lemma IappLockWorks(s: Sys, t: Sys)
    requires DoIappLock(s) == Ok(t)
    ensures Works(s, t)
  {
  }

  lemma PendNewState(s: Sys, fd: Fd, t: Sys)
    requires DoIappPend(s, fd) == Ok(t) && s.ipc.ILocked?
    ensures !s.ipc.req.E42Delete?
    ensures t.ipc.IPended? && t.ipc.kind == s.ipc.req.Kind() && t.ipc.who == s.ipc.req.Who()
    ensures t == s.(ric := t.ric, forwarded := s.forwarded + 1, ipc := t.ipc)
  {
  }

  lemma PendDeleteState(s: Sys, fd: Fd, t: Sys)
    requires DoIappPend(s, fd) == Ok(t) && s.ipc.IFound?
    ensures t.ipc.IDelPended? && t == s.(ric := t.ric, ipc := t.ipc)
  {
  }

  lemma IappPendWorks(s: Sys, fd: Fd, t: Sys)
    requires DoIappPend(s, fd) == Ok(t)
    ensures Works(s, t)
  {
    if s.ipc.ILocked? {
      PendNewState(s, fd, t);
    } else {
      PendDeleteState(s, fd, t);
    }
  }

  lemma SendState(s: Sys, t: Sys, n: NodeId, m: E2Req)
    requires DoIappSend(s) == Ok(t)
    requires s.ipc.IPended? ==> n == s.ipc.at.node && m == E2Req(s.ipc.kind, s.ipc.who.ric.(req := s.ipc.at.req))
    requires s.ipc.IDelPended? ==> n == s.ipc.node && m == E2Req(Delete, s.ipc.ric)
    ensures n in s.r2a && t == s.(r2a := s.r2a[n := s.r2a[n] + [m]], ipc := t.ipc)
    ensures (s.ipc.IPended? && t.ipc.ISent?) || (s.ipc.IDelPended? && t.ipc.IIdle?)
  {
    match s.ipc {
      case IPended(_, _, _) =>
      case IDelPended(_, _) =>
    }
  }

  lemma IappSendWorks(s: Sys, t: Sys, n: NodeId, m: E2Req)
    requires DoIappSend(s) == Ok(t)
    requires s.ipc.IPended? ==> n == s.ipc.at.node && m == E2Req(s.ipc.kind, s.ipc.who.ric.(req := s.ipc.at.req))
    requires s.ipc.IDelPended? ==> n == s.ipc.node && m == E2Req(Delete, s.ipc.ric)
    ensures Works(s, t)
  {
    SendState(s, t, n, m);
    IappSendCounts(s, t, n, m);
    IappSendKeeps(s, t, n, m);
  }

  lemma IappSendCounts(s: Sys, t: Sys, n: NodeId, m: E2Req)
    requires n in s.r2a && t == s.(r2a := s.r2a[n := s.r2a[n] + [m]], ipc := t.ipc)
    requires (s.ipc.IPended? && t.ipc.ISent?) || (s.ipc.IDelPended? && t.ipc.IIdle?)
    ensures Counts(s, t)
  {
    SizesPush(s.r2a, n, s.r2a[n], m);
    SentWork(s.ipc, t.ipc);
    assert Totals.Total(Sizes(t.r2a)) == Totals.Total(Sizes(s.r2a)) + 1;
  }

  lemma SentWork(p: IPc, q: IPc)
    requires (p.IPended? && q.ISent?) || (p.IDelPended? && q.IIdle?)
    ensures IappOpens(p) == 0 && IappOpens(q) == 0 && IappWork(q) + 8 < IappWork(p)
  {
  }

  lemma IappSendKeeps(s: Sys, t: Sys, n: NodeId, m: E2Req)
    requires n in s.r2a && t == s.(r2a := s.r2a[n := s.r2a[n] + [m]], ipc := t.ipc)
    requires t.ipc.ISent? || t.ipc.IIdle?
    requires IappTcFree(s.ipc) ==> !TcE2Request(m)
    ensures Keeps(s, t)
  {
  }

  lemma IappAddWorks(s: Sys, t: Sys)
    requires DoIappAdd(s) == Ok(t)
    ensures Works(s, t)
  {
  }

  lemma IappUnlockWorks(s: Sys, t: Sys)
    requires DoIappUnlock(s) == Ok(t)
    ensures Works(s, t)
  {
  }

  lemma IappFindWorks(s: Sys, t: Sys)
    requires DoIappFind(s) == Ok(t)
    ensures Works(s, t)
  {
  }

  /** The kind of answer that the agent gives to a request. */
  function Reply(kind: ReqKind): AnsKind {
    match kind
    case Subscribe => SubResponse
    case Delete => DelResponse
    case Control => ControlAck
  }

  lemma AgentState1(s: Sys, n: NodeId, fd: Fd, kind: ReqKind, t: Sys)
    requires DoAgentRecv(s, n, fd) == Ok(t) && s.r2a[n][0].kind == kind
    ensures n in s.agents && n in s.r2a && s.r2a[n] != [] && n in t.agents
    ensures t == s.(r2a := s.r2a[n := s.r2a[n][1..]], agents := s.agents[n := t.agents[n]],
                    a2r := s.a2r[n := Get(s.a2r, n) + [E2Ans(Reply(kind), s.r2a[n][0].ric)]], emitted := t.emitted)
    ensures forall ric | ric in t.agents[n].ind.right ::
              ric in s.agents[n].ind.right || (kind == Subscribe && ric == s.r2a[n][0].ric)
  {
    match kind {
      case Subscribe =>
      case Delete =>
      case Control => assert s.agents[n := s.agents[n]] == s.agents;
    }
  }

  lemma AgentRecvWorks(s: Sys, n: NodeId, fd: Fd, t: Sys)
    requires DoAgentRecv(s, n, fd) == Ok(t)
    ensures Works(s, t)
  {
    var m := s.r2a[n][0];
    AgentState1(s, n, fd, m.kind, t);
    AgentRecvCounts(s, n, m, t);
    AgentRecvKeeps(s, n, m, t);
  }

  lemma AgentRecvCounts(s: Sys, n: NodeId, m: E2Req, t: Sys)
    requires n in s.agents && n in s.r2a && s.r2a[n] != [] && s.r2a[n][0] == m && n in t.agents
    requires t == s.(r2a := s.r2a[n := s.r2a[n][1..]], agents := s.agents[n := t.agents[n]],
                     a2r := s.a2r[n := Get(s.a2r, n) + [E2Ans(Reply(m.kind), m.ric)]], emitted := t.emitted)
    ensures Counts(s, t)
  {
    SizesPop(s.r2a, n);
    SizesPush(s.a2r, n, Get(s.a2r, n), E2Ans(Reply(m.kind), m.ric));
  }

  lemma AgentRecvKeeps(s: Sys, n: NodeId, m: E2Req, t: Sys)
    requires n in s.agents && n in s.r2a && s.r2a[n] != [] && s.r2a[n][0] == m && n in t.agents
    requires t == s.(r2a := s.r2a[n := s.r2a[n][1..]], agents := s.agents[n := t.agents[n]],
                     a2r := s.a2r[n := Get(s.a2r, n) + [E2Ans(Reply(m.kind), m.ric)]], emitted := t.emitted)
    requires forall ric | ric in t.agents[n].ind.right ::
               ric in s.agents[n].ind.right || (m.kind == Subscribe && ric == m.ric)
    ensures Keeps(s, t)
  {
    assert m in s.r2a[n];
    var reply := E2Ans(Reply(m.kind), m.ric);
    assert !Refused(reply);
    forall j, a | NoneRefused(s) && j in t.a2r && a in t.a2r[j] ensures !Refused(a) {
      if j == n && a != reply {
        assert a in Get(s.a2r, n);
      }
    }
    forall j, ric | TcFree(s) && j in t.agents && ric in t.agents[j].ind.right ensures ric.func != SM_TC {
      assert !TcE2Request(m);
      if j == n {
        assert ric in s.agents[n].ind.right || (m.kind == Subscribe && ric == m.ric);
      } else {
        assert ric in s.agents[j].ind.right;
      }
    }
  }

  lemma RicRecvWorks(s: Sys, n: NodeId, t: Sys)
    requires DoRicRecv(s, n) == Ok(t)
    ensures Works(s, t)
  {
    RicRecvState(s, n, t);
    RicRecvCounts(s, n, t);
    RicRecvKeeps(s, n, t);
  }

  lemma RicRecvState(s: Sys, n: NodeId, t: Sys)
    requires DoRicRecv(s, n) == Ok(t)
    ensures s.rpc == RIdle && n in s.a2r && s.a2r[n] != []
    ensures t == s.(a2r := s.a2r[n := s.a2r[n][1..]], rpc := RGot(n, s.a2r[n][0]))
  {
  }

  lemma RicRecvCounts(s: Sys, n: NodeId, t: Sys)
    requires s.rpc == RIdle && n in s.a2r && s.a2r[n] != []
    requires t == s.(a2r := s.a2r[n := s.a2r[n][1..]], rpc := RGot(n, s.a2r[n][0]))
    ensures Counts(s, t)
  {
    SizesPop(s.a2r, n);
  }

  lemma RicRecvKeeps(s: Sys, n: NodeId, t: Sys)
    requires s.rpc == RIdle && n in s.a2r && s.a2r[n] != []
    requires t == s.(a2r := s.a2r[n := s.a2r[n][1..]], rpc := RGot(n, s.a2r[n][0]))
    ensures Keeps(s, t)
  {
    assert s.a2r[n][0] in s.a2r[n];
  }

  lemma RicStopWorks(s: Sys, t: Sys)
    requires DoRicStop(s) == Ok(t)
    ensures Works(s, t)
  {
  }

  lemma RicLockWorks(s: Sys, t: Sys)
    requires DoRicLock(s) == Ok(t)
    ensures Works(s, t)
  {
  }

  lemma RicFindWorks(s: Sys, t: Sys)
    requires DoRicFind(s) == Ok(t)
    ensures Works(s, t)
  {
  }

  lemma RicSendWorks(s: Sys, t: Sys)
    requires DoRicSend(s) == Ok(t)
    ensures Works(s, t)
  {
    var k := s.socks[s.rpc.who.xapp];
    SizesPush(s.i2x, k, s.i2x[k], Translate(s.rpc.ans, s.rpc.who));
  }

  lemma WokenSet(xs: map<Sock, XappState>, k: Sock, x: XappState)
    requires k in xs
    ensures Total(Woken(xs[k := x]))
            == Total(Woken(xs)) + (if x.call.Signalled? then 1 else 0) - (if xs[k].call.Signalled? then 1 else 0)
  {
    var v: nat := if x.call.Signalled? then 1 else 0;
    assert Woken(xs[k := x]) == Woken(xs)[k := v];
    TotalSet(Woken(xs), k, v);
  }

  lemma HeardState(s: Sys, k: Sock, closes: Option<ReqKind>, t: Sys)
    requires DoXappRecv(s, k) == Ok(t) && Closes(s.i2x[k][0].kind) == closes
    ensures k in s.xs && k in s.i2x && s.i2x[k] != [] && k in t.xs
    ensures t == s.(xs := s.xs[k := t.xs[k]], i2x := s.i2x[k := s.i2x[k][1..]], received := t.received,
            stray := t.stray)
    ensures CallKept(s.xs[k], t.xs[k])
    ensures t.xs[k].call == s.xs[k].call || t.xs[k].call == Wake(s.xs[k].call)
  {
    match closes {
      case None => assert s.xs[k := s.xs[k]] == s.xs;
      case Some(_) =>
    }
  }

  lemma XappRecvWorks(s: Sys, k: Sock, t: Sys)
    requires DoXappRecv(s, k) == Ok(t)
    ensures Works(s, t)
  {
    HeardState(s, k, Closes(s.i2x[k][0].kind), t);
    XappRecvCounts(s, k, t);
  }

  lemma XappRecvCounts(s: Sys, k: Sock, t: Sys)
    requires k in s.xs && k in s.i2x && s.i2x[k] != [] && k in t.xs
    requires t == s.(xs := s.xs[k := t.xs[k]], i2x := s.i2x[k := s.i2x[k][1..]], received := t.received,
             stray := t.stray)
    requires t.xs[k].call == s.xs[k].call || t.xs[k].call == Wake(s.xs[k].call)
    ensures Counts(s, t)
  {
    SizesPop(s.i2x, k);
    WokenSet(s.xs, k, t.xs[k]);
  }

  lemma ReturnState(s: Sys, k: Sock, kind: ReqKind, t: Sys)
    requires DoXappReturn(s, k) == Ok(t) && s.xs[k].call.kind == kind
    ensures k in s.xs && s.xs[k].call.Signalled? && k in t.xs
    ensures t == s.(xs := s.xs[k := t.xs[k]])
    ensures CallKept(s.xs[k], t.xs[k]) && t.xs[k].call == NoCall
  {
    if kind == Subscribe {
    } else {
    }
  }

  lemma XappReturnWorks(s: Sys, k: Sock, t: Sys)
    requires DoXappReturn(s, k) == Ok(t)
    ensures Works(s, t)
  {
    ReturnState(s, k, s.xs[k].call.kind, t);
    XappReturnCounts(s, k, t);
    XappReturnKeeps(s, k, t);
  }

  lemma XappReturnKeeps(s: Sys, k: Sock, t: Sys)
    requires k in s.xs && k in t.xs && t == s.(xs := s.xs[k := t.xs[k]]) && CallKept(s.xs[k], t.xs[k])
    ensures Keeps(s, t) && CallsKept(s, t) && Draws(s, t)
  {
  }

  lemma XappReturnCounts(s: Sys, k: Sock, t: Sys)
    requires k in s.xs && s.xs[k].call.Signalled? && k in t.xs
    requires t == s.(xs := s.xs[k := t.xs[k]]) && t.xs[k].call == NoCall
    ensures Counts(s, t)
  {
    WokenSet(s.xs, k, t.xs[k]);
  }

  /** Every draining step leaves less to do. */
  lemma DrainingWorks(s: Sys, st: Step, t: Sys)
    requires Draining(st) && Next(s, st) == Ok(t)
    ensures Works(s, t)
  {
    match st {
      case XappRecv(k) => XappRecvWorks(s, k, t);
      case XappReturn(k) => XappReturnWorks(s, k, t);
      case IappRecv(k) => IappRecvWorks(s, k, t);
      case IappLock => IappLockWorks(s, t);
      case IappPend(fd) => IappPendWorks(s, fd, t);
      case IappSend =>
        if s.ipc.IPended? {
          IappSendWorks(s, t, s.ipc.at.node, E2Req(s.ipc.kind, s.ipc.who.ric.(req := s.ipc.at.req)));
        } else {
          IappSendWorks(s, t, s.ipc.node, E2Req(Delete, s.ipc.ric));
        }
      case IappAdd => IappAddWorks(s, t);
      case IappUnlock => IappUnlockWorks(s, t);
      case IappFind => IappFindWorks(s, t);
      case AgentRecv(n, fd) => AgentRecvWorks(s, n, fd, t);
      case RicRecv(n) => RicRecvWorks(s, n, t);
      case RicStop => RicStopWorks(s, t);
      case RicLock => RicLockWorks(s, t);
      case RicFind => RicFindWorks(s, t);
      case RicSend => RicSendWorks(s, t);
    }
  }

  lemma OnlyLockLocks(s: Sys, st: Step, t: Sys)
    requires Draining(st) && Next(s, st) == Ok(t) && s.ipc.IGot? && t.ipc.ILocked?
    ensures st == IappLock
  {
    match st {
      case XappRecv(k) => HeardState(s, k, Closes(s.i2x[k][0].kind), t);
      case XappReturn(k) => ReturnState(s, k, s.xs[k].call.kind, t);
      case AgentRecv(n, fd) => AgentState1(s, n, fd, s.r2a[n][0].kind, t);
      case _ =>
    }
  }

  // ---------------------------------------------------------------- the other steps

  /** An indication counts no request, and is of no refused type unless its
      subscription is of the traffic control model. */
  lemma TimerKeeps(s: Sys, n: NodeId, fd: Fd, p: int, t: Sys)
    requires DoAgentTimer(s, n, fd, p) == Ok(t) && s.agents[n].ind.Inverse()
    ensures Requested(t) == Requested(s) && (TcFree(s) ==> TcFree(t))
  {
    var ric := s.agents[n].ind.left[fd];
    assert ric in s.agents[n].ind.right;
  }

  lemma XappSetupKeeps(s: Sys, k: Sock, t: Sys)
    requires DoXappSetup(s, k) == Ok(t) && k !in s.x2i
    ensures Requested(t) == Requested(s) && (TcFree(s) ==> TcFree(t))
  {
    OpensSet(s.x2i, k, []);
    TotalSet(Opens(s.x2i), k, 0);
  }

  lemma NodeSetupKeeps(s: Sys, n: NodeId, net: Fd, t: Sys)
    requires DoNodeSetup(s, n, net) == Ok(t)
    ensures Requested(t) == Requested(s) && (TcFree(s) ==> TcFree(t))
  {
  }

  lemma OpenState(s: Sys, k: Sock, kind: ReqKind, node: NodeId, func: U16, fd: Fd, t: Sys)
    requires kind != Delete && DoOpen(s, k, kind, node, func, fd) == Ok(t)
    ensures k in s.x2i && k in t.x2i && t.x2i[k] != []
    ensures var r := t.x2i[k][|t.x2i[k]| - 1];
            && !r.E42Delete? && (TcRequest(r) ==> kind == Subscribe && func == SM_TC)
            && t == s.(xs := t.xs, x2i := s.x2i[k := s.x2i[k] + [r]])
  {
  }

  lemma OpenKeeps(s: Sys, k: Sock, kind: ReqKind, node: NodeId, func: U16, fd: Fd, t: Sys)
    requires kind != Delete && DoOpen(s, k, kind, node, func, fd) == Ok(t)
    ensures Requested(t) == Requested(s) + 1
    ensures kind == Control || func != SM_TC ==> (TcFree(s) ==> TcFree(t))
    ensures NoneRefused(s) ==> NoneRefused(t)
  {
    OpenState(s, k, kind, node, func, fd, t);
    OpensPush(s.x2i, k, t.x2i[k][|t.x2i[k]| - 1]);
  }

  lemma RmKeeps(s: Sys, k: Sock, h: U16, fd: Fd, t: Sys)
    requires DoRmReport(s, k, h, fd) == Ok(t)
    ensures Requested(t) == Requested(s) && (TcFree(s) ==> TcFree(t))
  {
    var r := E42Delete(s.xs[k].id, RicOf(h, s.xs[k].procs[h]));
    assert t == s.(xs := t.xs, x2i := s.x2i[k := s.x2i[k] + [r]]);
    OpensPush(s.x2i, k, r);
  }
}
