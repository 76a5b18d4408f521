// What no step takes back: the counters, the id map, and the fact that every
// answer on its way to an xApp has passed through the id map.
module Stability {
  import opened E2ap
  import opened BiMap
  import opened RicTables
  import opened IdMap
  import opened XappTables
  import opened AgentTables
  import opened Protocol
  import opened Invariant

  // ---------------------------------------------------------------- counters and bindings

  ghost predicate Grows(s: Sys, t: Sys) {
    && s.forwarded <= t.forwarded && s.nextXapp <= t.nextXapp
    && forall i | i in s.ids.left :: i in t.ids.left && t.ids.left[i] == s.ids.left[i]
  }

  /** Once an id is drawn for a request, it keeps its meaning. */
  ghost predicate KeepsBound(s: Sys, t: Sys) {
    forall i | i in Bound(s).left :: i in Bound(t).left && Bound(t).left[i] == Bound(s).left[i]
  }

  /** A step outside the iApp thread, or one of its steps that binds nothing. */
  ghost predicate SameBound(s: Sys, t: Sys) {
    t.ids == s.ids && Bound(t) == Bound(s)
  }

  predicate IappStep(st: Step) {
    st.IappRecv? || st.IappLock? || st.IappPend? || st.IappSend? || st.IappAdd? || st.IappUnlock? || st.IappFind?
  }

  predicate XappStep(st: Step) {
    st.XappSetup? || st.Report? || st.RmReport? || st.ControlCall? || st.XappRecv? || st.XappReturn?
  }

  lemma AgentGrows(s: Sys, n: NodeId, fd: Fd, kind: ReqKind, t: Sys)
    requires DoAgentRecv(s, n, fd) == Ok(t) && s.r2a[n][0].kind == kind
    ensures Grows(s, t) && SameBound(s, t)
  {
    match kind {
      case Subscribe =>
      case Delete =>
      case Control =>
    }
  }

  lemma ReturnGrows(s: Sys, k: Sock, kind: ReqKind, t: Sys)
    requires DoXappReturn(s, k) == Ok(t) && s.xs[k].call.kind == kind
    ensures Grows(s, t) && SameBound(s, t)
  {
    if kind == Subscribe {
    } else {
    }
  }

  lemma HearGrows(s: Sys, k: Sock, closes: Option<ReqKind>, t: Sys)
    requires DoXappRecv(s, k) == Ok(t) && Closes(s.i2x[k][0].kind) == closes
    ensures Grows(s, t) && SameBound(s, t)
  {
    match closes {
      case None =>
      case Some(_) =>
    }
  }

  lemma XappGrows(s: Sys, st: Step, t: Sys)
    requires Next(s, st) == Ok(t) && XappStep(st)
    ensures Grows(s, t) && SameBound(s, t)
  {
    if st.XappReturn? {
      ReturnGrows(s, st.sock, s.xs[st.sock].call.kind, t);
    } else if st.XappRecv? {
      HearGrows(s, st.sock, Closes(s.i2x[st.sock][0].kind), t);
    }
  }

  lemma PendGrows(s: Sys, fd: Fd, t: Sys)
    requires DoIappPend(s, fd) == Ok(t)
    ensures Grows(s, t)
    ensures t.ids == s.ids
    ensures s.ipc.ILocked? ==> t.ipc.IPended? && t.ipc.at.req == Trunc16(s.ric.reqId)
    ensures !s.ipc.ILocked? ==> Bound(t) == Bound(s)
  {
    match s.ipc {
      case ILocked(_) =>
      case IFound(_, _) =>
    }
  }

  lemma SendGrows(s: Sys, t: Sys)
    requires DoIappSend(s) == Ok(t)
    ensures Grows(s, t) && SameBound(s, t)
  {
    match s.ipc {
      case IPended(_, _, _) =>
      case IDelPended(_, _) =>
    }
  }

  lemma IappGrows(s: Sys, st: Step, t: Sys)
    requires Next(s, st) == Ok(t) && IappStep(st)
    ensures Grows(s, t)
    ensures !st.IappPend? ==> Bound(t) == Bound(s)
  {
    match st {
      case IappPend(fd) => PendGrows(s, fd, t);
      case IappSend => SendGrows(s, t);
      case IappRecv(_) =>
      case IappLock =>
      case IappAdd => assert Bound(t) == Bound(s);
      case IappUnlock =>
      case IappFind =>
    }
  }

  lemma StepGrows(s: Sys, st: Step, t: Sys)
    requires Next(s, st) == Ok(t)
    ensures Grows(s, t)
    ensures !st.IappPend? ==> Bound(t) == Bound(s)
  {
    match st {
      case AgentRecv(n, fd) => AgentGrows(s, n, fd, s.r2a[n][0].kind, t);
      case NodeSetup(_, _) =>
      case AgentTimer(_, _, _) =>
      case RicRecv(_) =>
      case RicStop =>
      case RicLock =>
      case RicFind =>
      case RicSend =>
      case _ =>
        if IappStep(st) {
          IappGrows(s, st, t);
        } else {
          XappGrows(s, st, t);
        }
    }
  }

  /** The drawn id is new, so that no binding is overwritten. */
  lemma StepKeepsBound(s: Sys, st: Step, t: Sys)
    requires Next(s, st) == Ok(t)
    requires BoundOk(Bound(s), s.forwarded, s.socks, s.agents.Keys) && CounterOk(s.forwarded, s.ric.reqId)
    ensures KeepsBound(s, t)
  {
    StepGrows(s, st, t);
    if st.IappPend? {
      PendGrows(s, st.fd, t);
    }
  }

  // ---------------------------------------------------------------- answers and the id map

  ghost predicate KnownTo(right: map<XappRicId, NodeReq>, x: XappState, deliver: seq<E2Ans>) {
    forall m | m in deliver :: XappRicId(m.ric, x.id) in right && !Refused(m)
  }

  /** The answer whose timer the RIC thread has handled. */
  function PassedAns(rpc: RPc): Option<E2Ans> {
    match rpc
    case RStopped(_, m) => Some(m)
    case RLocked(_, m) => Some(m)
    case RFound(_, m, _) => Some(m)
    case _ => None
  }

  /** Whatever has been looked up, delivered or received was in the id map, and
      nothing that the near-RIC refuses is past it. */
  ghost predicate Known(s: Sys) {
    && (forall q | q in s.received :: q in s.ids.right)
    && (forall k | k in s.xs :: KnownTo(s.ids.right, s.xs[k], Get(s.i2x, k)))
    && (s.rpc.RFound? ==> s.rpc.who in s.ids.right)
    && (PassedAns(s.rpc).Some? ==> !Refused(PassedAns(s.rpc).value))
  }

  /** A step that touches none of these. */
  ghost predicate Rests(s: Sys, t: Sys) {
    && t.i2x == s.i2x && t.received == s.received && t.ids == s.ids
    && t.xs.Keys == s.xs.Keys && (forall k | k in s.xs :: t.xs[k].id == s.xs[k].id)
    && (t.rpc.RFound? ==> t.rpc == s.rpc)
    && (PassedAns(t.rpc).Some? ==> PassedAns(t.rpc) == PassedAns(s.rpc) || !Refused(PassedAns(t.rpc).value))
  }

  lemma RestsKnown(s: Sys, t: Sys)
    requires Known(s) && Rests(s, t)
    ensures Known(t)
  {
    forall k | k in t.xs ensures KnownTo(t.ids.right, t.xs[k], Get(t.i2x, k)) {
      assert k in s.xs.Keys;
      assert KnownTo(s.ids.right, s.xs[k], Get(s.i2x, k));
    }
  }

  lemma AgentRests(s: Sys, n: NodeId, fd: Fd, kind: ReqKind, t: Sys)
    requires DoAgentRecv(s, n, fd) == Ok(t) && s.r2a[n][0].kind == kind
    ensures Rests(s, t)
  {
    match kind {
      case Subscribe =>
      case Delete =>
      case Control =>
    }
  }

  lemma PendRests(s: Sys, fd: Fd, t: Sys)
    requires DoIappPend(s, fd) == Ok(t)
    ensures Rests(s, t)
  {
    match s.ipc {
      case ILocked(_) =>
      case IFound(_, _) =>
    }
  }

  lemma SendRests(s: Sys, t: Sys)
    requires DoIappSend(s) == Ok(t)
    ensures Rests(s, t)
  {
    match s.ipc {
      case IPended(_, _, _) =>
      case IDelPended(_, _) =>
    }
  }

  lemma ReturnRests(s: Sys, k: Sock, kind: ReqKind, t: Sys)
    requires DoXappReturn(s, k) == Ok(t) && s.xs[k].call.kind == kind
    ensures Rests(s, t)
  {
    if kind == Subscribe {
    } else {
    }
  }

  lemma OpenRests(s: Sys, k: Sock, kind: ReqKind, n: NodeId, f: U16, fd: Fd, t: Sys)
    requires kind != Delete && DoOpen(s, k, kind, n, f, fd) == Ok(t)
    ensures Rests(s, t)
  {
  }

  lemma ControlRests(s: Sys, k: Sock, n: NodeId, f: U16, c: U16, fd: Fd, t: Sys)
    requires DoControl(s, k, n, f, c, fd) == Ok(t)
    ensures Rests(s, t)
  {
    OpenRests(s, k, Control, n, f, fd, t);
  }

  lemma RmRests(s: Sys, k: Sock, h: U16, fd: Fd, t: Sys)
    requires DoRmReport(s, k, h, fd) == Ok(t)
    ensures Rests(s, t)
  {
  }

  lemma SetupKnown(s: Sys, k: Sock, t: Sys)
    requires Known(s) && DoXappSetup(s, k) == Ok(t)
    ensures Known(t)
  {
    forall j | j in t.xs ensures KnownTo(t.ids.right, t.xs[j], Get(t.i2x, j)) {
      if j != k {
        assert KnownTo(s.ids.right, s.xs[j], Get(s.i2x, j));
      }
    }
  }

  lemma AddKnown(s: Sys, t: Sys)
    requires Known(s) && DoIappAdd(s) == Ok(t)
    ensures Known(t)
  {
    forall j | j in t.xs ensures KnownTo(t.ids.right, t.xs[j], Get(t.i2x, j)) {
      assert KnownTo(s.ids.right, s.xs[j], Get(s.i2x, j));
    }
  }

  lemma FindKnown(s: Sys, t: Sys)
    requires Known(s) && DoRicFind(s) == Ok(t) && Bijection(s.ids.left, s.ids.right)
    ensures Known(t)
  {
    forall j | j in t.xs ensures KnownTo(t.ids.right, t.xs[j], Get(t.i2x, j)) {
      assert KnownTo(s.ids.right, s.xs[j], Get(s.i2x, j));
    }
  }

  /** What the xApp receives leaves its channel. */
  lemma HearState(s: Sys, k: Sock, closes: Option<ReqKind>, t: Sys)
    requires DoXappRecv(s, k) == Ok(t) && Closes(s.i2x[k][0].kind) == closes
    ensures k in s.xs && k in s.i2x && s.i2x[k] != []
    ensures t.ids == s.ids && t.rpc == s.rpc && t.i2x == s.i2x[k := s.i2x[k][1..]]
    ensures exists x :: t.xs == s.xs[k := x] && x.id == s.xs[k].id
    ensures var who := XappRicId(s.i2x[k][0].ric, s.xs[k].id);
            t.received == s.received[who := Get(s.received, who) + [s.i2x[k][0].kind]]
  {
    match closes {
      case None => assert t.xs == s.xs[k := s.xs[k]];
      case Some(_) => assert t.xs == s.xs[k := t.xs[k]];
    }
  }

  lemma HearKnown(s: Sys, k: Sock, t: Sys)
    requires Known(s) && DoXappRecv(s, k) == Ok(t)
    ensures Known(t)
  {
    HearState(s, k, Closes(s.i2x[k][0].kind), t);
    assert KnownTo(s.ids.right, s.xs[k], Get(s.i2x, k));
    assert s.i2x[k][0] in s.i2x[k];
    forall j | j in t.xs ensures KnownTo(t.ids.right, t.xs[j], Get(t.i2x, j)) {
      assert j in s.xs.Keys;
      assert KnownTo(s.ids.right, s.xs[j], Get(s.i2x, j));
    }
  }

  lemma DeliverKnown(s: Sys, t: Sys)
    requires Known(s) && DoRicSend(s) == Ok(t) && s.rpc.RFound?
    requires Translate(s.rpc.ans, s.rpc.who).ric == s.rpc.who.ric && s.rpc.ans.ric.func == s.rpc.who.ric.func
    requires forall k | k in s.xs && s.rpc.who.xapp in s.socks && s.socks[s.rpc.who.xapp] == k ::
               s.xs[k].id == s.rpc.who.xapp
    ensures Known(t)
  {
    forall j | j in t.xs ensures KnownTo(t.ids.right, t.xs[j], Get(t.i2x, j)) {
      assert KnownTo(s.ids.right, s.xs[j], Get(s.i2x, j));
    }
  }

  lemma DeliverKnownOf(s: Sys, t: Sys)
    requires Wf(s) && Known(s) && DoRicSend(s) == Ok(t) && s.rpc.RFound?
    ensures Known(t)
  {
    assert Translate(s.rpc.ans, s.rpc.who).ric == s.rpc.who.ric;
    assert forall id | id in s.socks :: SockOk(s.xs, s.socks, id);
    DeliverKnown(s, t);
  }

  lemma LookedUpInMap(s: Sys)
    requires Wf(s) && s.rpc.RLocked?
    ensures Bijection(s.ids.left, s.ids.right)
  {
    assert Bound(s) == s.ids;
  }

  lemma XappKnown(s: Sys, st: Step, t: Sys)
    requires Known(s) && Next(s, st) == Ok(t) && XappStep(st)
    ensures Known(t)
  {
    match st {
      case XappSetup(k) => SetupKnown(s, k, t);
      case Report(k, n, f, fd) => OpenRests(s, k, Subscribe, n, f, fd, t); RestsKnown(s, t);
      case ControlCall(k, n, f, c, fd) => ControlRests(s, k, n, f, c, fd, t); RestsKnown(s, t);
      case RmReport(k, h, fd) => RmRests(s, k, h, fd, t); RestsKnown(s, t);
      case XappRecv(k) => HearKnown(s, k, t);
      case XappReturn(k) => ReturnRests(s, k, s.xs[k].call.kind, t); RestsKnown(s, t);
    }
  }

  lemma IappKnown(s: Sys, st: Step, t: Sys)
    requires Known(s) && Next(s, st) == Ok(t) && IappStep(st)
    ensures Known(t)
  {
    match st {
      case IappPend(fd) => PendRests(s, fd, t); RestsKnown(s, t);
      case IappSend => SendRests(s, t); RestsKnown(s, t);
      case IappAdd => AddKnown(s, t);
      case IappRecv(k) => RestsKnown(s, t);
      case IappLock => RestsKnown(s, t);
      case IappUnlock => RestsKnown(s, t);
      case IappFind => RestsKnown(s, t);
    }
  }

  lemma RicKnown(s: Sys, st: Step, t: Sys)
    requires Wf(s) && Known(s) && Next(s, st) == Ok(t)
    requires st.RicRecv? || st.RicStop? || st.RicLock? || st.RicFind? || st.RicSend?
    ensures Known(t)
  {
    match st {
      case RicRecv(_) => RestsKnown(s, t);
      case RicStop => RestsKnown(s, t);
      case RicLock => RestsKnown(s, t);
      case RicFind => LookedUpInMap(s); FindKnown(s, t);
      case RicSend => DeliverKnownOf(s, t);
    }
  }

  lemma AgentKnown(s: Sys, st: Step, t: Sys)
    requires Known(s) && Next(s, st) == Ok(t)
    requires st.AgentRecv? || st.NodeSetup? || st.AgentTimer?
    ensures Known(t)
  {
    match st {
      case AgentRecv(n, fd) => AgentRests(s, n, fd, s.r2a[n][0].kind, t); RestsKnown(s, t);
      case NodeSetup(_, _) => RestsKnown(s, t);
      case AgentTimer(_, _, _) => RestsKnown(s, t);
    }
  }

  lemma StepKnown(s: Sys, st: Step, t: Sys)
    requires Wf(s) && Known(s) && Next(s, st) == Ok(t)
    ensures Known(t)
  {
    if IappStep(st) {
      IappKnown(s, st, t);
    } else if XappStep(st) {
      XappKnown(s, st, t);
    } else if st.AgentRecv? || st.NodeSetup? || st.AgentTimer? {
      AgentKnown(s, st, t);
    } else {
      RicKnown(s, st, t);
    }
  }
}
