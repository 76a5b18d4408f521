// When a run can fail: exactly when a caller makes a call that it could have known
// to be bad, when there are more connected nodes than the iApp can list, or when one
// procedure more is opened than the 16-bit ids allow.
module Safety {
  import opened E2ap
  import opened BiMap
  import opened RicTables
  import opened IdMap
  import opened XappTables
  import opened AgentTables
  import opened Protocol
  import opened Invariant
  import opened Stability
  import opened Runs
  import EndToEnd
  import opened Work
  import opened Drain

  /** A call that fails at once, a report of the traffic control model, whose
      indications the near-RIC refuses, or a control call for a node that is not
      connected, which the iApp refuses. */
  predicate BadCall(s: Sys, st: Step) {
    || CallFails(s, st)
    || (st.Report? && st.func == SM_TC && Ready(s, st.sock))
    || (st.ControlCall? && st.node !in s.agents && Ready(s, st.sock))
  }

  /** A request to open a procedure has not been taken from its channel. */
  ghost predicate RequestWaits(s: Sys) {
    exists k, r :: k in s.x2i && r in s.x2i[k] && !r.E42Delete?
  }

  /** With this step the iApp has to list more nodes than fit: a setup or an opening
      call when too many are connected, or one node too many while a request waits. */
  ghost predicate Crowds(s: Sys, st: Step) {
    match st
    case XappSetup(k) => k !in s.xs && |s.agents| > MAX_NODES
    case NodeSetup(n, net) => n !in s.agents && net > 0 && |s.agents| >= MAX_NODES && RequestWaits(s)
    case Report(k, _, _, _) => Ready(s, k) && |s.agents| > MAX_NODES
    case ControlCall(k, _, _, _, _) => Ready(s, k) && |s.agents| > MAX_NODES
    case _ => false
  }

  /** How many calls have opened a procedure. */
  function Openings(steps: seq<Step>): nat {
    if steps == [] then 0
    else Openings(steps[..|steps| - 1]) + (if Opening(steps[|steps| - 1]) then 1 else 0)
  }

  /** How many nodes have been set up. */
  function NodeSetups(steps: seq<Step>): nat {
    if steps == [] then 0
    else NodeSetups(steps[..|steps| - 1]) + (if steps[|steps| - 1].NodeSetup? then 1 else 0)
  }

  /** No call of the run is bad. */
  predicate Decent(steps: seq<Step>) {
    steps == []
    || (var front := steps[..|steps| - 1];
        && Decent(front)
        && (Exec(front).Ok? ==> !BadCall(Exec(front).s, steps[|steps| - 1])))
  }

  /** At no step of the run are there too many nodes. */
  ghost predicate Roomy(steps: seq<Step>) {
    steps == []
    || (var front := steps[..|steps| - 1];
        && Roomy(front)
        && (Exec(front).Ok? ==> !Crowds(Exec(front).s, steps[|steps| - 1])))
  }

  // ---------------------------------------------------------------- what a step counts

  lemma SetupCounts(s: Sys, k: Sock, t: Sys)
    requires KeysOk(s.xs.Keys, s.x2i.Keys, s.i2x.Keys, s.agents.Keys, s.r2a.Keys, s.a2r.Keys)
    requires DoXappSetup(s, k) == Ok(t)
    ensures Requested(t) == Requested(s) && (TcFree(s) ==> TcFree(t))
  {
    assert k !in s.xs.Keys;
    XappSetupKeeps(s, k, t);
  }

  lemma TimerCounts(s: Sys, n: NodeId, fd: Fd, p: int, t: Sys)
    requires NodesOk(s) && DoAgentTimer(s, n, fd, p) == Ok(t)
    ensures Requested(t) == Requested(s) && (TcFree(s) ==> TcFree(t))
  {
    assert NodeOk(Bound(s).left, n, s.agents[n], Get(s.r2a, n), Get(s.a2r, n));
    TimerKeeps(s, n, fd, p, t);
  }

  lemma ControlCounts(s: Sys, k: Sock, n: NodeId, f: U16, c: U16, fd: Fd, t: Sys)
    requires DoControl(s, k, n, f, c, fd) == Ok(t)
    ensures Requested(t) == Requested(s) + 1 && (TcFree(s) ==> TcFree(t)) && (NoneRefused(s) ==> NoneRefused(t))
  {
    OpenKeeps(s, k, Control, n, f, fd, t);
  }

  /** Requests are counted where they are made, and the traffic control model
      enters the system with a report alone. */
  lemma StepCounts(s: Sys, st: Step, t: Sys)
    requires KeysOk(s.xs.Keys, s.x2i.Keys, s.i2x.Keys, s.agents.Keys, s.r2a.Keys, s.a2r.Keys) && NodesOk(s)
    requires Next(s, st) == Ok(t)
    ensures Requested(t) == Requested(s) + (if Opening(st) then 1 else 0)
    ensures !(st.Report? && st.func == SM_TC) && TcFree(s) ==> TcFree(t)
  {
    match st {
      case XappSetup(k) => SetupCounts(s, k, t);
      case NodeSetup(n, net) => NodeSetupKeeps(s, n, net, t);
      case Report(k, n, f, fd) => OpenKeeps(s, k, Subscribe, n, f, fd, t);
      case RmReport(k, h, fd) => RmKeeps(s, k, h, fd, t);
      case ControlCall(k, n, f, c, fd) => ControlCounts(s, k, n, f, c, fd, t);
      case AgentTimer(n, fd, p) => TimerCounts(s, n, fd, p, t);
      case _ => DrainingWorks(s, st, t);
    }
  }

  lemma NumbersAfter(s: Sys, st: Step, t: Sys)
    requires Next(s, st) == Ok(t) && s.nextXapp <= FIRST_XAPP + TWO_16
    requires st.XappSetup? ==> s.nextXapp < FIRST_XAPP + TWO_16
    ensures t.nextXapp <= FIRST_XAPP + TWO_16
  {
    match st {
      case XappSetup(k) =>
      case NodeSetup(n, net) =>
      case Report(k, n, f, fd) =>
      case RmReport(k, h, fd) =>
      case ControlCall(k, n, f, c, fd) =>
      case AgentTimer(n, fd, p) =>
      case _ => DrainingWorks(s, st, t);
    }
  }

  // ---------------------------------------------------------------- requests that wait

  lemma SetupNoneDoomed(s: Sys, k: Sock, t: Sys)
    requires DoXappSetup(s, k) == Ok(t) && NoneDoomed(s)
    ensures NoneDoomed(t)
  {
    forall j, r ensures !Doomed(t, j, r) {
      assert !Doomed(s, j, r);
    }
  }

  lemma NodeNoneDoomed(s: Sys, n: NodeId, net: Fd, t: Sys)
    requires DoNodeSetup(s, n, net) == Ok(t) && NoneDoomed(s) && !Crowds(s, NodeSetup(n, net))
    ensures NoneDoomed(t)
  {
    forall j, r ensures !Doomed(t, j, r) {
      assert !Doomed(s, j, r);
    }
  }

  lemma NodeKnown(s: Sys, k: Sock, n: NodeId)
    requires XappsOk(s) && k in s.xs && n in s.xs[k].nodes
    ensures n in s.agents
  {
    assert XappOk(Bound(s).right, s.agents.Keys, s.xs[k], Early(s, k), Get(s.i2x, k));
    assert n in s.agents.Keys;
  }

  lemma PushNoneDoomed(s: Sys, k: Sock, r: E42Req, t: Sys)
    requires k in s.x2i && t.x2i == s.x2i[k := s.x2i[k] + [r]] && t.agents == s.agents && NoneDoomed(s)
    requires r.E42Delete? || Admitted(s, r.node)
    ensures NoneDoomed(t)
  {
    forall j, q ensures !Doomed(t, j, q) {
      assert !Doomed(s, j, q);
    }
  }

  lemma OpenRequestOf(s: Sys, k: Sock, kind: ReqKind, node: NodeId, func: U16, fd: Fd, t: Sys) returns (r: E42Req)
    requires kind != Delete && DoOpen(s, k, kind, node, func, fd) == Ok(t)
    ensures !r.E42Delete? && r.node == node && t.agents == s.agents
    ensures k in s.x2i && t.x2i == s.x2i[k := s.x2i[k] + [r]]
    ensures Ready(s, k) && (kind == Subscribe ==> node in s.xs[k].nodes)
  {
    r := t.x2i[k][|t.x2i[k]| - 1];
  }

  lemma OpenNoneDoomed(s: Sys, st: Step, t: Sys)
    requires XappsOk(s) && Opening(st) && Next(s, st) == Ok(t)
    requires NoneDoomed(s) && (st.ControlCall? ==> st.node in s.agents) && !Crowds(s, st)
    ensures NoneDoomed(t)
  {
    match st {
      case Report(k, n, f, fd) =>
        var r := OpenRequestOf(s, k, Subscribe, n, f, fd, t);
        NodeKnown(s, k, n);
        PushNoneDoomed(s, k, r, t);
      case ControlCall(k, n, f, c, fd) =>
        var r := OpenRequestOf(s, k, Control, n, f, fd, t);
        PushNoneDoomed(s, k, r, t);
    }
  }

  lemma RmNoneDoomed(s: Sys, k: Sock, h: U16, fd: Fd, t: Sys)
    requires DoRmReport(s, k, h, fd) == Ok(t) && NoneDoomed(s)
    ensures NoneDoomed(t)
  {
    PushNoneDoomed(s, k, E42Delete(s.xs[k].id, RicOf(h, s.xs[k].procs[h])), t);
  }

  lemma TimerNoneDoomed(s: Sys, n: NodeId, fd: Fd, p: int, t: Sys)
    requires DoAgentTimer(s, n, fd, p) == Ok(t) && NoneDoomed(s)
    ensures NoneDoomed(t)
  {
    forall j, r ensures !Doomed(t, j, r) {
      assert !Doomed(s, j, r);
    }
  }

  lemma DrainNoneDoomed(s: Sys, st: Step, t: Sys)
    requires Draining(st) && Next(s, st) == Ok(t) && NoneDoomed(s)
    ensures NoneDoomed(t)
  {
    DrainingWorks(s, st, t);
    assert t.agents.Keys == s.agents.Keys && |t.agents| == |t.agents.Keys| && |s.agents| == |s.agents.Keys|;
    if st.IappRecv? {
      IappRecvState(s, st.sock, t);
      assert s.x2i[st.sock][0] in s.x2i[st.sock];
    } else {
      ChannelsKept(s, st, t);
    }
    forall j, r ensures !Doomed(t, j, r) {
      assert !Doomed(s, j, r);
    }
  }

  lemma StepNoneDoomed(s: Sys, st: Step, t: Sys)
    requires XappsOk(s) && Next(s, st) == Ok(t) && NoneDoomed(s) && !BadCall(s, st) && !Crowds(s, st)
    ensures NoneDoomed(t)
  {
    match st {
      case XappSetup(k) => SetupNoneDoomed(s, k, t);
      case NodeSetup(n, net) => NodeNoneDoomed(s, n, net, t);
      case Report(_, _, _, _) => OpenNoneDoomed(s, st, t);
      case RmReport(k, h, fd) => RmNoneDoomed(s, k, h, fd, t);
      case ControlCall(k, n, f, c, fd) =>
        var r := OpenRequestOf(s, k, Control, n, f, fd, t);
        OpenNoneDoomed(s, st, t);
      case AgentTimer(n, fd, p) => TimerNoneDoomed(s, n, fd, p, t);
      case _ => DrainNoneDoomed(s, st, t);
    }
  }

  // ---------------------------------------------------------------- decent runs

  /** The state of a decent run that has not opened too many procedures. */
  ghost predicate Fine(s: Sys, made: nat) {
    Inv(s) && Known(s) && TcFree(s) && NoneDoomed(s) && Requested(s) == made <= MAX_FORWARDED
  }

  lemma InitFine()
    ensures Fine(Init(), 0)
  {
    InitInv();
    assert Totals.Total(Opens(Init().x2i)) == 0;
  }

  lemma StepWithin(s: Sys, st: Step, t: Sys)
    requires Inv(s) && Known(s) && Next(s, st) == Ok(t) && !CallFails(s, st)
    requires Requested(t) <= MAX_FORWARDED
    ensures Within(t)
  {
    SocksBound(s);
    if st.XappSetup? {
      SetupRoom(s, st.sock, t);
    }
    NumbersAfter(s, st, t);
  }

  lemma SetupRoom(s: Sys, k: Sock, t: Sys)
    requires DoXappSetup(s, k) == Ok(t) && !CallFails(s, XappSetup(k)) && s.nextXapp <= FIRST_XAPP + TWO_16
    ensures s.nextXapp < FIRST_XAPP + TWO_16
  {
  }

  lemma StepFine(s: Sys, st: Step, t: Sys, made: nat)
    requires Fine(s, made) && !BadCall(s, st) && !Crowds(s, st) && Next(s, st) == Ok(t)
    requires made + (if Opening(st) then 1 else 0) <= MAX_FORWARDED
    ensures Fine(t, made + (if Opening(st) then 1 else 0))
  {
    FineParts(s, made);
    StepCounts(s, st, t);
    StepWithin(s, st, t);
    StepInv(s, st, t);
    StepNoneDoomed(s, st, t);
    if st.Report? {
      ReportReady(s, st, t);
    }
  }

  lemma FineParts(s: Sys, made: nat)
    requires Fine(s, made)
    ensures KeysOk(s.xs.Keys, s.x2i.Keys, s.i2x.Keys, s.agents.Keys, s.r2a.Keys, s.a2r.Keys)
    ensures NodesOk(s) && XappsOk(s)
  {
  }

  lemma ReportReady(s: Sys, st: Step, t: Sys)
    requires st.Report? && Next(s, st) == Ok(t)
    ensures Ready(s, st.sock)
  {
  }

  /** A decent run stays within the widths, and all that has been proved of
      reachable states holds of it. */
  lemma {:induction false} DecentFine(steps: seq<Step>, s: Sys)
    requires Decent(steps) && Roomy(steps) && Exec(steps) == Ok(s) && Openings(steps) <= MAX_FORWARDED
    ensures Fine(s, Openings(steps))
  {
    if steps == [] {
      InitFine();
    } else {
      var front := steps[..|steps| - 1];
      var before := Exec(front).s;
      DecentFine(front, before);
      StepFine(before, steps[|steps| - 1], s, Openings(front));
    }
  }

  lemma FineNoAbort(s: Sys, st: Step, made: nat)
    requires Fine(s, made) && !BadCall(s, st) && !Crowds(s, st)
    ensures Next(s, st) != Abort
  {
    AssertionsHold(s, st);
    if RefusedAtIapp(s, st) && st.IappRecv? {
      assert s.x2i[st.sock][0] in s.x2i[st.sock];
      assert Doomed(s, st.sock, s.x2i[st.sock][0]);
    }
  }

  /** A decent run of up to 64515 opening calls, with room for its nodes, does not fail. */
  lemma {:induction false} DecentNeverAborts(steps: seq<Step>)
    requires Decent(steps) && Roomy(steps) && Openings(steps) <= MAX_FORWARDED
    ensures Exec(steps) != Abort
  {
    if steps != [] {
      var front := steps[..|steps| - 1];
      DecentNeverAborts(front);
      if Exec(front).Ok? {
        DecentFine(front, Exec(front).s);
        FineNoAbort(Exec(front).s, steps[|steps| - 1], Openings(front));
      }
    }
  }

  // ---------------------------------------------------------------- few nodes

  lemma OpenAgents(s: Sys, st: Step, t: Sys)
    requires (Opening(st) || st.RmReport? || st.AgentTimer? || st.XappSetup?) && Next(s, st) == Ok(t)
    ensures |t.agents| == |s.agents| && (!st.XappSetup? ==> t.xs.Keys == s.xs.Keys)
  {
    match st {
      case XappSetup(_) =>
      case Report(k, n, f, fd) => var r := OpenRequestOf(s, k, Subscribe, n, f, fd, t);
      case RmReport(_, _, _) =>
      case ControlCall(k, n, f, _, fd) => var r := OpenRequestOf(s, k, Control, n, f, fd, t);
      case AgentTimer(_, _, _) =>
    }
  }

  lemma StepAgents(s: Sys, st: Step, t: Sys)
    requires Next(s, st) == Ok(t)
    ensures |t.agents| == |s.agents| + (if st.NodeSetup? then 1 else 0)
    ensures !st.XappSetup? ==> t.xs.Keys == s.xs.Keys
  {
    if Draining(st) {
      DrainingWorks(s, st, t);
      assert t.agents.Keys == s.agents.Keys && |t.agents| == |t.agents.Keys| && |s.agents| == |s.agents.Keys|;
    } else if !st.NodeSetup? {
      OpenAgents(s, st, t);
    }
  }

  /** The nodes are those that have been set up. */
  lemma {:induction false} NodesCount(steps: seq<Step>, s: Sys)
    requires Exec(steps) == Ok(s)
    ensures |s.agents| == NodeSetups(steps)
  {
    if steps != [] {
      var front := steps[..|steps| - 1];
      NodesCount(front, Exec(front).s);
      StepAgents(Exec(front).s, steps[|steps| - 1], s);
    }
  }

  /** Up to 255 nodes have room. */
  lemma {:induction false} FewNodesRoomy(steps: seq<Step>)
    requires NodeSetups(steps) <= MAX_NODES
    ensures Roomy(steps)
  {
    if steps != [] {
      var front := steps[..|steps| - 1];
      FewNodesRoomy(front);
      if Exec(front).Ok? {
        NodesCount(front, Exec(front).s);
      }
    }
  }

  /** Without nodes there are no xApps and no procedures. */
  lemma {:induction false} NoNodes(steps: seq<Step>, s: Sys)
    requires Decent(steps) && NodeSetups(steps) == 0 && Exec(steps) == Ok(s)
    ensures |s.agents| == 0 && s.xs == map[] && Openings(steps) == 0
  {
    NodesCount(steps, s);
    if steps != [] {
      var front := steps[..|steps| - 1];
      var st := steps[|steps| - 1];
      NodesCount(front, Exec(front).s);
      NoNodes(front, Exec(front).s);
      NoNodesNoCalls(Exec(front).s, st);
      StepAgents(Exec(front).s, st, s);
      assert s.xs.Keys == {};
    }
  }

  lemma NoNodesNoCalls(s: Sys, st: Step)
    requires |s.agents| == 0 && s.xs == map[] && !BadCall(s, st) && Next(s, st).Ok?
    ensures !st.XappSetup? && !Opening(st)
  {
  }

  lemma {:induction false} NoNodesNeverAbort(steps: seq<Step>)
    requires Decent(steps) && NodeSetups(steps) == 0
    ensures Exec(steps) != Abort
    decreases |steps|
  {
    FewNodesRoomy(steps);
    if steps != [] {
      var front := steps[..|steps| - 1];
      NoNodesNeverAbort(front);
      if Exec(front).Ok? {
        NoNodes(front, Exec(front).s);
        DecentNeverAborts(steps);
      }
    }
  }
}
