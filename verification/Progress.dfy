// A call that waits for its answer is never stuck: a party on its path can move.
module Progress {
  import opened E2ap
  import opened BiMap
  import opened RicTables
  import opened IdMap
  import opened XappTables
  import opened AgentTables
  import opened Protocol
  import opened Invariant
  import opened Stability
  import opened Runs
  import opened EndToEnd
  import XappSteps

  /** A step of one of the two threads of the RIC process inside a handler. */
  predicate ThreadStep(st: Step) {
    || st.IappLock? || st.IappPend? || st.IappSend? || st.IappAdd? || st.IappUnlock? || st.IappFind?
    || st.RicStop? || st.RicLock? || st.RicFind? || st.RicSend?
  }

  /** The step is taken, unless it handles an indication that the near-RIC refuses
      or a request that the iApp refuses. */
  predicate Goes(s: Sys, st: Step) {
    Next(s, st).Ok? || (Next(s, st) == Abort && (RefusedAtRic(s, st) || RefusedAtIapp(s, st)))
  }

  lemma GoesIfEnabled(s: Sys, st: Step)
    requires Inv(s) && Known(s) && Next(s, st) != Blocked
    requires !st.XappSetup? && !st.Report? && !st.RmReport? && !st.ControlCall?
    ensures Goes(s, st)
  {
    AssertionsHold(s, st);
  }

  /** The kernel never runs out of descriptor numbers. */
  lemma FreshFd(used: set<Fd>) returns (fd: Fd)
    ensures fd > 0 && fd !in used
    ensures forall d | d in used :: d < fd
    decreases |used|
  {
    if d :| d in used {
      var rest := FreshFd(used - {d});
      fd := if d < rest then rest else d + 1;
      forall e | e in used ensures e < fd {
        if e != d {
          assert e in used - {d};
        }
      }
    } else {
      fd := 1;
    }
  }

  // ---------------------------------------------------------------- the two threads

  lemma IappEnabled(s: Sys) returns (st: Step)
    requires LockOk(s.lock, s.ipc, s.rpc) && s.ipc != IIdle && s.lock != ByRic
    ensures ThreadStep(st) && IappStep(st) && Next(s, st) != Blocked
    ensures st == IappLock <==> s.ipc.IGot?
  {
    var fd := FreshFd(s.ric.timers);
    match s.ipc {
      case IGot(_) => st := IappLock;
      case ILocked(req) => st := if req.E42Delete? then IappFind else IappPend(fd);
      case IPended(_, _, _) => st := IappSend;
      case ISent(_, _) => st := IappAdd;
      case IAdded => st := IappUnlock;
      case IFound(_, _) => st := IappPend(fd);
      case IDelPended(_, _) => st := IappSend;
    }
  }

  lemma RicEnabled(s: Sys) returns (st: Step)
    requires LockOk(s.lock, s.ipc, s.rpc) && s.rpc != RIdle && s.lock != ByIapp
    ensures (st.RicStop? || st.RicLock? || st.RicFind? || st.RicSend?) && Next(s, st) != Blocked
  {
    match s.rpc {
      case RGot(_, _) => st := RicStop;
      case RStopped(_, _) => st := RicLock;
      case RLocked(_, _) => st := RicFind;
      case RFound(_, _, _) => st := RicSend;
    }
  }

  /** If one of the two threads is inside a handler, one of the two can go on,
      whoever holds the id-map lock. */
  lemma ThreadsMove(s: Sys) returns (st: Step)
    requires Reachable(s) && (s.ipc != IIdle || s.rpc != RIdle)
    ensures ThreadStep(st) && Goes(s, st)
  {
    ReachableFacts(s);
    assert LockOk(s.lock, s.ipc, s.rpc);
    if s.ipc != IIdle && s.lock != ByRic {
      st := IappEnabled(s);
    } else {
      st := RicEnabled(s);
    }
    GoesIfEnabled(s, st);
  }

  // ---------------------------------------------------------------- the channels

  /** A waiting request is somewhere. */
  lemma WaitingIsSomewhere(v: View)
    requires ViewOk(v) && v.call.Waits?
    ensures v.early || v.down != [] || v.passed != [] || v.queued != []
  {
  }

  lemma AgentEnabled(s: Sys, n: NodeId) returns (fd: Fd)
    requires n in s.agents && Get(s.r2a, n) != []
    ensures Next(s, AgentRecv(n, fd)) != Blocked
  {
    fd := FreshFd(s.agents[n].epoll);
    match s.r2a[n][0].kind {
      case Subscribe =>
      case Delete =>
      case Control =>
    }
  }

  /** The channel that holds a bound request, or its answer, is not empty. */
  lemma BoundEnabled(s: Sys, k: Sock, i: U16) returns (st: Step)
    requires s.ipc == IIdle && s.rpc == RIdle && k in s.xs
    requires i in Bound(s).left && RequestOk(s, i) && s.socks[Bound(s).left[i].who.xapp] == k
    requires ViewOf(s, i).call.Waits? && Early(s, k) == []
    ensures Next(s, st) != Blocked
    ensures var n := Bound(s).left[i].node; st == XappRecv(k) || (st.AgentRecv? && st.node == n) || st == RicRecv(n)
  {
    var n := Bound(s).left[i].node;
    SomewhereInChannels(s, k, i);
    if Get(s.r2a, n) != [] {
      var fd := AgentEnabled(s, n);
      st := AgentRecv(n, fd);
    } else if Get(s.i2x, k) != [] {
      st := XappRecv(k);
      HearEnabled(s, k, Closes(s.i2x[k][0].kind));
    } else {
      st := RicRecv(n);
    }
  }

  lemma HearEnabled(s: Sys, k: Sock, closes: Option<ReqKind>)
    requires k in s.xs && Get(s.i2x, k) != [] && Closes(s.i2x[k][0].kind) == closes
    ensures Next(s, XappRecv(k)) != Blocked
  {
    match closes {
      case None =>
      case Some(_) =>
    }
  }

  lemma SomewhereInChannels(s: Sys, k: Sock, i: U16)
    requires s.ipc == IIdle && s.rpc == RIdle && k in s.xs
    requires i in Bound(s).left && RequestOk(s, i) && s.socks[Bound(s).left[i].who.xapp] == k
    requires ViewOf(s, i).call.Waits? && Early(s, k) == []
    ensures var n := Bound(s).left[i].node;
            n in s.agents && (Get(s.r2a, n) != [] || Get(s.i2x, k) != [] || Get(s.a2r, n) != [])
  {
    WaitingIsSomewhere(ViewOf(s, i));
  }

  /** The bound request of a waiting call that has left the xApp. */
  lemma WaitingRequest(s: Sys, k: Sock) returns (i: U16)
    requires Wf(s) && XappsOk(s) && ViewsOk(s) && k in s.xs && s.xs[k].call.Waiting? && Early(s, k) == []
    ensures i in Bound(s).left && RequestOk(s, i) && s.socks[Bound(s).left[i].who.xapp] == k
    ensures ViewOf(s, i).call.Waits?
    ensures s.xs[k].call.ric.req in s.xs[k].procs && s.xs[k].procs[s.xs[k].call.ric.req].node == Bound(s).left[i].node
  {
    assert XappOk(Bound(s).right, s.agents.Keys, s.xs[k], Early(s, k), Get(s.i2x, k));
    i := XappSteps.OwnRequest(s, k, s.xs[k].call.ric);
    assert ProcOk(Bound(s).right, s.xs[k], s.xs[k].call.ric.req);
    assert Bound(s).right[Bound(s).left[i].who] == NodeReq(Bound(s).left[i].node, i);
  }

  /** The steps on the path of the call of the xApp on `k`: its own channels, those
      of the node that its procedure is about, and the two threads between them. */
  predicate OnPath(s: Sys, k: Sock, st: Step) {
    || ThreadStep(st) || st == IappRecv(k) || st == XappRecv(k)
    || (&& k in s.xs && s.xs[k].call.Waiting? && s.xs[k].call.ric.req in s.xs[k].procs
        && var n := s.xs[k].procs[s.xs[k].call.ric.req].node;
           (st.AgentRecv? && st.node == n) || st == RicRecv(n))
  }

  lemma ReceiveEnabled(s: Sys, k: Sock)
    requires s.ipc == IIdle && Get(s.x2i, k) != []
    ensures Next(s, IappRecv(k)) != Blocked
  {
  }

  lemma ChannelsEnabled(s: Sys, k: Sock) returns (st: Step)
    requires Wf(s) && XappsOk(s) && ViewsOk(s) && k in s.xs && s.xs[k].call.Waiting?
    requires s.ipc == IIdle && s.rpc == RIdle && Get(s.x2i, k) == []
    ensures OnPath(s, k, st) && Next(s, st) != Blocked
    ensures st.XappRecv? || st.AgentRecv? || st.RicRecv?
  {
    assert Early(s, k) == [];
    var i := WaitingRequest(s, k);
    st := BoundEnabled(s, k, i);
  }

  /** While a call waits, a step on its path can be taken. */
  lemma WaitingCallMoves(s: Sys, k: Sock) returns (st: Step)
    requires Reachable(s) && k in s.xs && s.xs[k].call.Waiting?
    ensures OnPath(s, k, st) && Goes(s, st)
  {
    ReachableFacts(s);
    if s.ipc != IIdle || s.rpc != RIdle {
      st := ThreadsMove(s);
    } else if Get(s.x2i, k) != [] {
      ReceiveEnabled(s, k);
      st := IappRecv(k);
      GoesIfEnabled(s, st);
    } else {
      st := ChannelsEnabled(s, k);
      GoesIfEnabled(s, st);
    }
  }
}
