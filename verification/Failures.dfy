// The converse: after each bad call, with too many nodes, and after one opening call
// too many, the system can go on by itself to a failing assertion.
module Failures {
  import opened E2ap
  import opened BiMap
  import opened RicTables
  import opened IdMap
  import opened XappTables
  import opened AgentTables
  import opened Protocol
  import opened Invariant
  import opened Stability
  import opened Runs
  import opened EndToEnd
  import opened Progress
  import opened Work
  import opened Drain
  import opened Safety
  import NearRic

  ghost predicate AllInternal(steps: seq<Step>) {
    forall i | 0 <= i < |steps| :: Internal(steps[i])
  }

  lemma Concat(steps: seq<Step>, a: seq<Step>, b: seq<Step>)
    requires AllInternal(a) && AllInternal(b)
    ensures AllInternal(a + b) && Exec(steps + (a + b)) == Exec(steps + a + b)
  {
    assert steps + (a + b) == steps + a + b;
  }

  lemma Snoc(steps: seq<Step>, a: seq<Step>, st: Step)
    requires AllInternal(a) && Internal(st)
    ensures AllInternal(a + [st]) && Exec(steps + (a + [st])) == NearRic.Then(Exec(steps + a), st)
  {
    assert (steps + (a + [st]))[..|steps + a|] == steps + a;
  }

  // ---------------------------------------------------------------- the id 0

  /** A request is about to draw the id 0, and nothing else is under way. */
  ghost predicate Armed(s: Sys, req: E42Req) {
    && s.ipc == IGot(req) && !req.E42Delete? && s.lock == Free && s.rpc == RIdle && req.ric.req < TWO_16
    && req.node in s.agents && req.node in s.r2a && req.node in s.a2r
    && s.r2a[req.node] == [] && s.a2r[req.node] == []
    && Trunc16(s.ric.reqId) == 0 && 0 !in s.ids.left && req.Who() !in s.ids.right
    && s.ric.pending.left.Keys == s.ric.timers
    && PendEvent(req.Kind(), req.ric.(req := 0)) !in s.ric.pending.right
    && s.agents[req.node].ind.left.Keys <= s.agents[req.node].epoll
    && req.ric.(req := 0) !in s.agents[req.node].ind.right
  }

  lemma GotEarly(s: Sys, k: Sock)
    requires s.ipc.IGot? && !s.ipc.req.E42Delete?
    requires k in s.xs && s.xs[k].id == s.ipc.req.xapp
    requires XappOk(s.ids.right, s.agents.Keys, s.xs[k], Early(s, k), Get(s.i2x, k))
    ensures s.ipc.req.Who() !in s.ids.right && s.ipc.req.ric.req < TWO_16
  {
    assert Early(s, k)[0] == s.ipc.req;
  }

  lemma GotXapp(s: Sys) returns (k: Sock)
    requires Wf(s) && XappsOk(s) && s.ipc.IGot? && !s.ipc.req.E42Delete?
    ensures s.ipc.req.Who() !in s.ids.right && s.ipc.req.ric.req < TWO_16
    ensures s.ipc.req.node in s.agents && s.ipc.req.node in s.r2a && s.ipc.req.node in s.a2r
  {
    k := s.socks[s.ipc.req.xapp];
    assert SockOk(s.xs, s.socks, s.ipc.req.xapp);
    assert Bound(s) == s.ids;
    GotEarly(s, k);
    assert s.ipc.req.node in s.r2a.Keys && s.ipc.req.node in s.a2r.Keys;
  }

  /** The id 0 is bound to nothing and known nowhere. */
  lemma ZeroIsNew(s: Sys, n: NodeId)
    requires Wf(s) && NodesOk(s) && s.forwarded == MAX_FORWARDED && s.ipc.IGot? && n in s.agents
    ensures Trunc16(s.ric.reqId) == 0 && 0 !in s.ids.left && Bound(s) == s.ids
    ensures s.ric.pending.left.Keys == s.ric.timers
    ensures forall ev | ev in s.ric.pending.right :: ev.ric.req != 0
    ensures forall ric | ric in s.agents[n].ind.right :: ric.req != 0
    ensures s.agents[n].ind.left.Keys <= s.agents[n].epoll
  {
    assert Bound(s) == s.ids;
    assert NodeOk(Bound(s).left, n, s.agents[n], Get(s.r2a, n), Get(s.a2r, n));
  }

  lemma LastArmed(s: Sys)
    requires Wf(s) && NodesOk(s) && XappsOk(s) && AtLast(s) && Still(s)
    ensures Armed(s, s.ipc.req)
  {
    var k := GotXapp(s);
    ZeroIsNew(s, s.ipc.req.node);
    assert LockOk(s.lock, s.ipc, s.rpc);
  }

  lemma AgentAccepts(s: Sys, n: NodeId, m: E2Req) returns (fd: Fd)
    requires n in s.agents && n in s.r2a && s.r2a[n] == [m] && m.kind != Delete
    requires s.agents[n].ind.left.Keys <= s.agents[n].epoll && m.ric !in s.agents[n].ind.right
    ensures DoAgentRecv(s, n, fd).Ok?
  {
    fd := FreshFd(s.agents[n].epoll);
    match m.kind {
      case Subscribe =>
      case Control =>
    }
  }

  /** The forwarded request goes to the agent, and its answer to the RIC thread. */
  lemma ZeroAnswered(steps: seq<Step>, f: Sys, n: NodeId, m: E2Req) returns (cont: seq<Step>, h: Sys)
    requires Exec(steps) == Ok(f) && f.rpc == RIdle && f.lock == Free && m.kind != Delete && m.ric.req == 0
    requires n in f.agents && n in f.r2a && n in f.a2r && f.r2a[n] == [m] && f.a2r[n] == []
    requires f.agents[n].ind.left.Keys <= f.agents[n].epoll && m.ric !in f.agents[n].ind.right
    ensures AllInternal(cont) && Exec(steps + cont) == Ok(h)
    ensures h.rpc == RGot(n, E2Ans(Reply(m.kind), m.ric)) && h.lock == Free && h.ric == f.ric && h.ids == f.ids
  {
    var fd := AgentAccepts(f, n, m);
    var g := DoAgentRecv(f, n, fd).s;
    AgentState1(f, n, fd, m.kind, g);
    Extend(steps, f, AgentRecv(n, fd));
    ReadOne(g, n, E2Ans(Reply(m.kind), m.ric));
    Extend(steps + [AgentRecv(n, fd)], g, RicRecv(n));
    h := Next(g, RicRecv(n)).s;
    cont := [AgentRecv(n, fd), RicRecv(n)];
    assert steps + cont == steps + [AgentRecv(n, fd)] + [RicRecv(n)];
  }

  lemma ReadOne(g: Sys, n: NodeId, m: E2Ans)
    requires g.rpc == RIdle && n in g.a2r && g.a2r[n] == [m]
    ensures Next(g, RicRecv(n)) == Ok(g.(a2r := g.a2r[n := []], rpc := RGot(n, m)))
  {
    assert g.a2r[n][1..] == [];
  }

  /** The lookup of the id 0 fails. */
  lemma ZeroFails(steps: seq<Step>, h: Sys, n: NodeId, m: E2Ans) returns (cont: seq<Step>)
    requires Exec(steps) == Ok(h) && h.rpc == RGot(n, m) && h.lock == Free && m.ric.req == 0
    requires !m.kind.Indication? && RicTables.Awaited(h.ric, m)
    ensures AllInternal(cont) && Exec(steps + cont) == Abort
  {
    NearRic.AnswerFirstHalf(h, n, m);
    var s1 := Next(h, RicStop).s;
    var s2 := Next(s1, RicLock).s;
    assert Next(s2, RicFind) == Abort;
    Extend(steps, h, RicStop);
    Extend(steps + [RicStop], s1, RicLock);
    Extend(steps + [RicStop] + [RicLock], s2, RicFind);
    cont := [RicStop, RicLock, RicFind];
    assert steps + cont == steps + [RicStop] + [RicLock] + [RicFind];
  }

  /** The handler of the request that draws the id 0. */
  lemma ZeroForwarded(steps: seq<Step>, s: Sys, req: E42Req) returns (cont: seq<Step>, f: Sys)
    requires Exec(steps) == Ok(s) && Armed(s, req)
    ensures AllInternal(cont) && Exec(steps + cont) == Ok(f)
    ensures f.rpc == RIdle && f.lock == Free && f.agents == s.agents && f.a2r == s.a2r
    ensures req.node in f.r2a && f.r2a[req.node] == [E2Req(req.Kind(), req.ric.(req := 0))]
    ensures PendEvent(req.Kind(), req.ric.(req := 0)) in f.ric.pending.right
  {
    var fd := FreshFd(s.ric.timers);
    NearRic.HandlerIsItsSteps(s, req, fd);
    f := NearRic.Forwarded(s, req, fd);
    cont := [];
    assert steps + cont == steps;
    Snoc(steps, cont, IappLock);
    cont := cont + [IappLock];
    Snoc(steps, cont, IappPend(fd));
    cont := cont + [IappPend(fd)];
    Snoc(steps, cont, IappSend);
    cont := cont + [IappSend];
    Snoc(steps, cont, IappAdd);
    cont := cont + [IappAdd];
    Snoc(steps, cont, IappUnlock);
    cont := cont + [IappUnlock];
  }

  lemma ArmedFails(steps: seq<Step>, s: Sys, req: E42Req) returns (cont: seq<Step>)
    requires Exec(steps) == Ok(s) && Armed(s, req)
    ensures AllInternal(cont) && Exec(steps + cont) == Abort
  {
    var a, f := ZeroForwarded(steps, s, req);
    var m := E2Req(req.Kind(), req.ric.(req := 0));
    var b, h := ZeroAnswered(steps + a, f, req.node, m);
    Concat(steps, a, b);
    var c := ZeroFails(steps + (a + b), h, req.node, E2Ans(Reply(m.kind), m.ric));
    Concat(steps, a + b, c);
    cont := a + b + c;
  }

  lemma DrainingInternal(steps: seq<Step>)
    requires AllDraining(steps)
    ensures AllInternal(steps)
  {
  }

  /** One opening call more than there are ids: some request draws the id 0. */
  lemma TooManyFail(steps: seq<Step>, s: Sys) returns (cont: seq<Step>)
    requires Exec(steps) == Ok(s) && Sound(s) && NoneDoomed(s) && Requested(s) == MAX_FORWARDED + 1
    ensures AllInternal(cont) && Exec(steps + cont) == Abort
  {
    var a, t := DrainOut(steps, s);
    DrainingInternal(a);
    DrainedStill(t);
    SocksBound(t);
    if t.ipc == IIdle {
      IdleHasDrawn(t);
    }
    LastArmed(t);
    var b := ArmedFails(steps + a, t, t.ipc.req);
    Concat(steps, a, b);
    cont := a + b;
  }

  lemma NoOpens(x2i: map<Sock, seq<E42Req>>)
    requires forall k | k in x2i :: x2i[k] == []
    ensures Totals.Total(Opens(x2i)) == 0
  {
    if Totals.Total(Opens(x2i)) > 0 {
      var k := Totals.TotalPart(Opens(x2i));
    }
  }

  /** When nothing waits in the channels of the xApps, every request has its id. */
  lemma IdleHasDrawn(s: Sys)
    requires KeysOk(s.xs.Keys, s.x2i.Keys, s.i2x.Keys, s.agents.Keys, s.r2a.Keys, s.a2r.Keys)
    requires Still(s) && s.ipc == IIdle && NoneDoomed(s)
    ensures Undrawn(s) == 0 && Requested(s) == s.forwarded
  {
    forall k | k in s.x2i ensures s.x2i[k] == [] {
      assert k in s.x2i.Keys;
      assert Emptied(s, k);
    }
    NoOpens(s.x2i);
  }

  // ---------------------------------------------------------------- the traffic control model

  /** The report of this procedure is under way or has returned. */
  ghost predicate Reporting(s: Sys, k: Sock, key: U16) {
    && k in s.xs && key in s.xs[k].procs && s.xs[k].procs[key].func == SM_TC
    && (s.xs[k].call == NoCall || s.xs[k].call.kind == Subscribe)
  }

  lemma ReportingKept(s: Sys, t: Sys, k: Sock, key: U16)
    requires CallsKept(s, t) && Reporting(s, k, key)
    ensures Reporting(t, k, key)
  {
    assert CallKept(s.xs[k], t.xs[k]);
  }

  lemma InverseAt(s: Sys, n: NodeId, e: RicGenId)
    requires NodesOk(s) && n in s.agents && e in s.agents[n].ind.right
    ensures s.agents[n].ind.right[e] in s.agents[n].ind.left && s.agents[n].ind.left[s.agents[n].ind.right[e]] == e
  {
    assert NodeOk(Bound(s).left, n, s.agents[n], Get(s.r2a, n), Get(s.a2r, n));
  }

  /** At rest, the next indication of a subscription is the next message to the RIC. */
  lemma IndicationArrives(steps: seq<Step>, s: Sys, n: NodeId, e: RicGenId) returns (cont: seq<Step>, t: Sys)
    requires Exec(steps) == Ok(s) && s.rpc == RIdle && n in s.agents && Get(s.a2r, n) == []
    requires e in s.agents[n].ind.right
    requires var fd := s.agents[n].ind.right[e]; fd in s.agents[n].ind.left && s.agents[n].ind.left[fd] == e
    ensures AllInternal(cont) && Exec(steps + cont) == Ok(t)
    ensures t.rpc == RGot(n, E2Ans(Indication(0), e))
  {
    var fd := s.agents[n].ind.right[e];
    var m := E2Ans(Indication(0), e);
    var u := Emit(s, n, m);
    Extend(steps, s, AgentTimer(n, fd, 0));
    ReadOne(u, n, m);
    Extend(steps + [AgentTimer(n, fd, 0)], u, RicRecv(n));
    t := Next(u, RicRecv(n)).s;
    cont := [AgentTimer(n, fd, 0), RicRecv(n)];
    assert steps + cont == steps + [AgentTimer(n, fd, 0)] + [RicRecv(n)];
  }

  lemma RefusedFails(steps: seq<Step>, s: Sys, n: NodeId, e: RicGenId)
    requires Exec(steps) == Ok(s) && s.rpc == RGot(n, E2Ans(Indication(0), e)) && e.func == SM_TC
    ensures Exec(steps + [RicStop]) == Abort
  {
    Extend(steps, s, RicStop);
  }

  lemma SoundParts(steps: seq<Step>, s: Sys)
    requires Exec(steps) == Ok(s) && Sound(s)
    ensures Reachable(s) && NodesOk(s)
  {
    SocksBound(s);
    assert Within(s);
  }

  lemma NotAtLast(s: Sys)
    requires Requested(s) <= MAX_FORWARDED
    ensures !AtLast(s)
  {
  }

  lemma TcSubscription(s: Sys, k: Sock, key: U16) returns (n: NodeId, e: RicGenId)
    requires Reachable(s) && NodesOk(s) && k in s.xs && s.xs[k].call == NoCall && Reporting(s, k, key)
    ensures n in s.agents && e in s.agents[n].ind.right && e.func == SM_TC
    ensures var fd := s.agents[n].ind.right[e]; fd in s.agents[n].ind.left && s.agents[n].ind.left[fd] == e
  {
    n, e := ProcedureHasSubscription(s, k, key);
    InverseAt(s, n, e);
  }

  /** A drained state of a system that has such a report. */
  ghost predicate Resting(s: Sys, k: Sock, key: U16) {
    && s.rpc == RIdle && (forall n | n in s.agents :: Get(s.a2r, n) == [])
    && Reporting(s, k, key) && s.xs[k].call == NoCall
  }

  lemma RestingAfter(s: Sys, t: Sys, k: Sock, key: U16)
    requires Sound(t) && !CanDrain(t) && Follows(s, t) && NoneDoomed(s)
    requires Requested(s) <= MAX_FORWARDED && Reporting(s, k, key)
    ensures Resting(t, k, key)
  {
    ReportingKept(s, t, k, key);
    NotAtLast(t);
    DrainedStill(t);
    DrainedQuiet(t);
  }

  lemma RestingFails(steps: seq<Step>, s: Sys, k: Sock, key: U16) returns (cont: seq<Step>)
    requires Exec(steps) == Ok(s) && Reachable(s) && NodesOk(s) && Resting(s, k, key)
    ensures AllInternal(cont) && Exec(steps + cont) == Abort
  {
    var n, e := TcSubscription(s, k, key);
    var b, u := IndicationArrives(steps, s, n, e);
    RefusedFails(steps + b, u, n, e);
    Concat(steps, b, [RicStop]);
    cont := b + [RicStop];
  }

  /** A report of the traffic control model: its first indication fails the near-RIC. */
  lemma TcFails(steps: seq<Step>, s: Sys, k: Sock, key: U16) returns (cont: seq<Step>)
    requires Exec(steps) == Ok(s) && Sound(s) && NoneDoomed(s)
    requires Requested(s) <= MAX_FORWARDED && Reporting(s, k, key)
    ensures AllInternal(cont) && Exec(steps + cont) == Abort
  {
    var a, t := DrainOut(steps, s);
    DrainingInternal(a);
    RestingAfter(s, t, k, key);
    SoundParts(steps + a, t);
    var b := RestingFails(steps + a, t, k, key);
    Concat(steps, a, b);
    cont := a + b;
  }

  // ---------------------------------------------------------------- too many nodes

  lemma CountPositive(q: seq<E42Req>, r: E42Req)
    requires r in q && !r.E42Delete?
    ensures CountOpens(q) > 0
  {
  }

  lemma WaitingCounts(s: Sys, k: Sock, r: E42Req)
    requires Doomed(s, k, r)
    ensures Totals.Total(Opens(s.x2i)) > 0
  {
    CountPositive(s.x2i[k], r);
    Totals.TotalFrom(Opens(s.x2i), k);
  }

  /** A waiting request stays until the iApp takes it, and then its check fails. */
  lemma DoomedFails(steps: seq<Step>, s: Sys, k: Sock, r: E42Req) returns (cont: seq<Step>)
    requires Exec(steps) == Ok(s) && Sound(s) && Doomed(s, k, r) && Requested(s) <= MAX_FORWARDED + 1
    ensures AllInternal(cont) && Exec(steps + cont) == Abort
  {
    var a, t := DrainToDoomed(steps, s, k, r);
    TakenAfter(steps, a, t, k);
    cont := a + [IappRecv(k)];
  }

  lemma TakenAfter(steps: seq<Step>, a: seq<Step>, t: Sys, k: Sock)
    requires AllInternal(a) && Exec(steps + a) == Ok(t) && Next(t, IappRecv(k)) == Abort
    ensures AllInternal(a + [IappRecv(k)]) && Exec(steps + (a + [IappRecv(k)])) == Abort
  {
    Snoc(steps, a, IappRecv(k));
  }

  lemma DrainToDoomed(steps: seq<Step>, s: Sys, k: Sock, r: E42Req) returns (more: seq<Step>, t: Sys)
    requires Exec(steps) == Ok(s) && Sound(s) && Doomed(s, k, r) && Requested(s) <= MAX_FORWARDED + 1
    ensures AllInternal(more) && Exec(steps + more) == Ok(t) && Next(t, IappRecv(k)) == Abort
  {
    more, t := DrainOut(steps, s);
    DrainingInternal(more);
    DrainedDoomed(s, t, k, r);
  }

  lemma DrainedDoomed(s: Sys, t: Sys, k: Sock, r: E42Req)
    requires Sound(t) && !CanDrain(t) && Follows(s, t) && Doomed(s, k, r) && Requested(s) <= MAX_FORWARDED + 1
    ensures Next(t, IappRecv(k)) == Abort
  {
    DrainedStill(t);
    SoundKeys(t);
    assert Doomed(t, k, r);
    WaitingCounts(t, k, r);
    DoomedTaken(t, k);
  }

  lemma DoomedTaken(s: Sys, k: Sock)
    requires Still(s) && KeysOk(s.xs.Keys, s.x2i.Keys, s.i2x.Keys, s.agents.Keys, s.r2a.Keys, s.a2r.Keys)
    requires k in s.x2i && s.x2i[k] != []
    requires Requested(s) <= MAX_FORWARDED + 1 && Totals.Total(Opens(s.x2i)) > 0
    ensures Next(s, IappRecv(k)) == Abort
  {
    assert k in s.x2i.Keys;
    assert s.ipc == IIdle;
    assert Emptied(s, k);
  }

  lemma NodeSound(s: Sys, n: NodeId, net: Fd, t: Sys, made: nat)
    requires Fine(s, made) && DoNodeSetup(s, n, net) == Ok(t)
    ensures Sound(t) && Requested(t) == made
  {
    FineParts(s, made);
    NodeSetupKeeps(s, n, net, t);
    SocksBound(s);
    StepInv(s, NodeSetup(n, net), t);
  }

  /** One node too many while a request waits. */
  lemma NodeFails(steps: seq<Step>, s: Sys, n: NodeId, net: Fd, made: nat) returns (cont: seq<Step>)
    requires Exec(steps) == Ok(s) && Fine(s, made) && Crowds(s, NodeSetup(n, net))
    ensures AllInternal(cont) && Exec(steps + [NodeSetup(n, net)] + cont) == Abort
  {
    var t := Next(s, NodeSetup(n, net)).s;
    NodeSound(s, n, net, t, made);
    var k, r :| k in s.x2i && r in s.x2i[k] && !r.E42Delete?;
    assert Doomed(t, k, r);
    Extend(steps, s, NodeSetup(n, net));
    cont := DoomedFails(steps + [NodeSetup(n, net)], t, k, r);
  }

  /** The iApp is going to refuse the request that this call makes. */
  predicate OpensDoomed(s: Sys, st: Step) {
    Opening(st) && (|s.agents| > MAX_NODES || (st.ControlCall? && st.node !in s.agents))
  }

  lemma OpensDoomedRequest(s: Sys, st: Step, t: Sys) returns (k: Sock, r: E42Req)
    requires OpensDoomed(s, st) && Next(s, st) == Ok(t)
    ensures Doomed(t, k, r)
  {
    match st {
      case Report(sock, n, f, fd) => r := OpenRequestOf(s, sock, Subscribe, n, f, fd, t);
      case ControlCall(sock, n, f, c, fd) => r := OpenRequestOf(s, sock, Control, n, f, fd, t);
    }
    k := st.sock;
  }

  // ---------------------------------------------------------------- the exact condition

  /** An opening call leaves a sound state. */
  lemma OpenedSound(steps: seq<Step>, s: Sys, st: Step, t: Sys)
    requires Decent(steps) && Roomy(steps) && Exec(steps) == Ok(s) && Openings(steps) <= MAX_FORWARDED
    requires Opening(st) && Next(s, st) == Ok(t)
    ensures Sound(t) && Requested(t) == Openings(steps) + 1 && Exec(steps + [st]) == Ok(t)
  {
    DecentFine(steps, s);
    FineParts(s, Openings(steps));
    StepCounts(s, st, t);
    SocksBound(s);
    OpenKeepsRest(s, st, t);
    StepInv(s, st, t);
    Extend(steps, s, st);
  }

  lemma OpenKeepsRest(s: Sys, st: Step, t: Sys)
    requires Opening(st) && Next(s, st) == Ok(t) && NoneRefused(s) && Requested(s) <= MAX_FORWARDED
    ensures NoneRefused(t) && BeforeLast(t) && t.forwarded == s.forwarded && t.nextXapp == s.nextXapp
  {
    match st {
      case Report(k, n, f, fd) => OpenState(s, k, Subscribe, n, f, fd, t);
      case ControlCall(k, n, f, c, fd) => OpenState(s, k, Control, n, f, fd, t);
    }
  }

  lemma ReportReports(s: Sys, st: Step, t: Sys) returns (key: U16)
    requires st.Report? && st.func == SM_TC && Next(s, st) == Ok(t)
    ensures Reporting(t, st.sock, key)
  {
    key := s.xs[st.sock].nextKey;
  }

  /** What makes a step unsafe after a decent run of this many opening calls. */
  ghost predicate Unsafe(s: Sys, st: Step, made: nat) {
    BadCall(s, st) || Crowds(s, st) || (Opening(st) && made == MAX_FORWARDED)
  }

  /** Such a call opens a procedure, and what it leads to depends on the reason. */
  lemma OpeningFails(steps: seq<Step>, s: Sys, st: Step, t: Sys) returns (cont: seq<Step>)
    requires Decent(steps) && Roomy(steps) && Exec(steps) == Ok(s) && Openings(steps) <= MAX_FORWARDED
    requires Opening(st) && Next(s, st) == Ok(t)
    requires OpensDoomed(s, st) || Openings(steps) == MAX_FORWARDED || (st.Report? && st.func == SM_TC)
    ensures AllInternal(cont) && Exec(steps + [st] + cont) == Abort
  {
    OpenedSound(steps, s, st, t);
    if OpensDoomed(s, st) {
      var k, r := OpensDoomedRequest(s, st, t);
      cont := DoomedFails(steps + [st], t, k, r);
    } else {
      DecentFine(steps, s);
      OpenNoneDoomed(s, st, t);
      if Openings(steps) == MAX_FORWARDED {
        cont := TooManyFail(steps + [st], t);
      } else {
        var key := ReportReports(s, st, t);
        cont := TcFails(steps + [st], t, st.sock, key);
      }
    }
  }

  lemma UnsafeOpening(s: Sys, st: Step, made: nat)
    requires Unsafe(s, st, made) && !CallFails(s, st) && Next(s, st).Ok?
    ensures Opening(st) || st.NodeSetup?
    ensures st.NodeSetup? ==> Crowds(s, st)
    ensures Opening(st) ==> OpensDoomed(s, st) || made == MAX_FORWARDED || (st.Report? && st.func == SM_TC)
  {
  }

  /** After an unsafe step an internal continuation fails. */
  lemma BadFails(steps: seq<Step>, s: Sys, st: Step) returns (cont: seq<Step>)
    requires Decent(steps) && Roomy(steps) && Exec(steps) == Ok(s) && Openings(steps) <= MAX_FORWARDED
    requires Next(s, st) != Blocked && Unsafe(s, st, Openings(steps))
    ensures AllInternal(cont) && Exec(steps + [st] + cont) == Abort
  {
    if Next(s, st) == Abort {
      Extend(steps, s, st);
      cont := [];
      assert steps + [st] + [] == steps + [st];
    } else {
      NotAtOnce(steps, s, st);
      UnsafeOpening(s, st, Openings(steps));
      if st.NodeSetup? {
        DecentFine(steps, s);
        cont := NodeFails(steps, s, st.node, st.net, Openings(steps));
      } else {
        cont := OpeningFails(steps, s, st, Next(s, st).s);
      }
    }
  }

  lemma NotAtOnce(steps: seq<Step>, s: Sys, st: Step)
    requires Decent(steps) && Roomy(steps) && Exec(steps) == Ok(s) && Openings(steps) <= MAX_FORWARDED
    requires Next(s, st).Ok?
    ensures !CallFails(s, st)
  {
    DecentFine(steps, s);
    AssertionsHold(s, st);
  }

  lemma RunSnoc(steps: seq<Step>, st: Step)
    ensures Decent(steps + [st]) <==> Decent(steps) && (Exec(steps).Ok? ==> !BadCall(Exec(steps).s, st))
    ensures Roomy(steps + [st]) <==> Roomy(steps) && (Exec(steps).Ok? ==> !Crowds(Exec(steps).s, st))
    ensures Openings(steps + [st]) == Openings(steps) + (if Opening(st) then 1 else 0)
    ensures NodeSetups(steps + [st]) == NodeSetups(steps) + (if st.NodeSetup? then 1 else 0)
  {
    assert (steps + [st])[..|steps|] == steps;
  }

  lemma InternalHarmless(s: Sys, st: Step)
    requires Internal(st)
    ensures !BadCall(s, st) && !Crowds(s, st)
  {
  }

  /** What the system does by itself makes a run neither bad nor crowded. */
  lemma {:induction false} RunAfter(steps: seq<Step>, s: Sys, st: Step, cont: seq<Step>)
    requires Exec(steps) == Ok(s) && AllInternal(cont)
    ensures Decent(steps + [st] + cont) <==> Decent(steps) && !BadCall(s, st)
    ensures Roomy(steps + [st] + cont) <==> Roomy(steps) && !Crowds(s, st)
    ensures Openings(steps + [st] + cont) == Openings(steps) + (if Opening(st) then 1 else 0)
    ensures NodeSetups(steps + [st] + cont) == NodeSetups(steps) + (if st.NodeSetup? then 1 else 0)
  {
    if cont == [] {
      assert steps + [st] + cont == steps + [st];
      RunSnoc(steps, st);
    } else {
      var c := cont[..|cont| - 1];
      var last := cont[|cont| - 1];
      RunAfter(steps, s, st, c);
      RunSnoc(steps + [st] + c, last);
      if Exec(steps + [st] + c).Ok? {
        InternalHarmless(Exec(steps + [st] + c).s, last);
      }
      assert steps + [st] + cont == steps + [st] + c + [last];
    }
  }

  /** After a decent run of at most 64515 opening calls with room for its nodes, some
      internal continuation of an enabled step fails if and only if the step is a bad
      call, brings more nodes than the iApp can list, or opens one procedure too many. */
  lemma CallIsSafeIff(steps: seq<Step>, s: Sys, st: Step)
    requires Decent(steps) && Roomy(steps) && Exec(steps) == Ok(s) && Openings(steps) <= MAX_FORWARDED
    requires Next(s, st) != Blocked
    ensures (exists cont :: AllInternal(cont) && Exec(steps + [st] + cont) == Abort)
            <==> BadCall(s, st) || Crowds(s, st) || (Opening(st) && Openings(steps) == MAX_FORWARDED)
  {
    if Unsafe(s, st, Openings(steps)) {
      var cont := BadFails(steps, s, st);
    } else {
      forall cont | AllInternal(cont) ensures Exec(steps + [st] + cont) != Abort {
        RunAfter(steps, s, st, cont);
        DecentNeverAborts(steps + [st] + cont);
      }
    }
  }

  // ---------------------------------------------------------------- the bounds are reached

  const SOCK := 4
  const NET := 3
  const NODE := Node(1)
  const CALL := ControlCall(SOCK, NODE, SM_SLICE, SM_SLICE, 9)

  function Node(i: U32): NodeId {
    NodeId(GNB, Plmn(1, 1, 2), i, None)
  }

  /** One xApp and one node at rest after n control calls. */
  ghost predicate AfterCalls(s: Sys, n: nat) {
    && SOCK in s.xs && s.xs[SOCK].call == NoCall && s.xs[SOCK].nextKey == n + 1
    && s.agents.Keys == {NODE} && s.xs[SOCK].nodes == {NODE} && SOCK in s.x2i && s.forwarded == n
  }

  ghost predicate NewFrom(s: Sys, a: nat) {
    forall i: U32 | a <= i :: Node(i) !in s.agents.Keys
  }

  /** Any number of nodes can be set up while no request waits. */
  lemma {:induction false} MoreNodes(steps: seq<Step>, s: Sys, a: nat, n: nat) returns (more: seq<Step>, t: Sys)
    requires Decent(steps) && Roomy(steps) && Exec(steps) == Ok(s) && !RequestWaits(s)
    requires a + n < TWO_32 && NewFrom(s, a)
    ensures Decent(more) && Roomy(more) && Exec(more) == Ok(t) && !RequestWaits(t)
    ensures Openings(more) == Openings(steps) && NodeSetups(more) == NodeSetups(steps) + n
    ensures t == s.(agents := t.agents, r2a := t.r2a, a2r := t.a2r) && |t.agents| == |s.agents| + n
    ensures s.agents.Keys <= t.agents.Keys && NewFrom(t, a + n)
  {
    if n == 0 {
      more, t := steps, s;
    } else {
      var before, u := MoreNodes(steps, s, a, n - 1);
      t := AddNode(before, u, Node(a + n - 1));
      more := before + [NodeSetup(Node(a + n - 1), NET)];
    }
  }

  lemma AddState(s: Sys, n: NodeId) returns (t: Sys)
    requires n !in s.agents
    ensures DoNodeSetup(s, n, NET) == Ok(t)
    ensures t == s.(agents := t.agents, r2a := t.r2a, a2r := t.a2r)
    ensures t.agents.Keys == s.agents.Keys + {n} && |t.agents| == |s.agents| + 1
  {
    t := s.(agents := s.agents[n := Connected(NET)], r2a := s.r2a[n := []], a2r := s.a2r[n := []]);
  }

  lemma AddNode(steps: seq<Step>, s: Sys, n: NodeId) returns (t: Sys)
    requires Decent(steps) && Roomy(steps) && Exec(steps) == Ok(s) && !RequestWaits(s) && n !in s.agents
    ensures var more := steps + [NodeSetup(n, NET)];
            && Decent(more) && Roomy(more) && Exec(more) == Ok(t)
            && Openings(more) == Openings(steps) && NodeSetups(more) == NodeSetups(steps) + 1
    ensures !RequestWaits(t) && t == s.(agents := t.agents, r2a := t.r2a, a2r := t.a2r)
    ensures t.agents.Keys == s.agents.Keys + {n} && |t.agents| == |s.agents| + 1
  {
    t := AddState(s, n);
    RunSnoc(steps, NodeSetup(n, NET));
    Extend(steps, s, NodeSetup(n, NET));
  }

  /** A node and an xApp have arrived. */
  lemma FirstSteps() returns (steps: seq<Step>, s: Sys)
    ensures Decent(steps) && Roomy(steps) && Exec(steps) == Ok(s) && AfterCalls(s, 0) && !RequestWaits(s)
    ensures Openings(steps) == 0 && NodeSetups(steps) == 1
  {
    var one := AddNode([], Init(), NODE);
    s := Next(one, XappSetup(SOCK)).s;
    RunSnoc([NodeSetup(NODE, NET)], XappSetup(SOCK));
    Extend([NodeSetup(NODE, NET)], one, XappSetup(SOCK));
    steps := [NodeSetup(NODE, NET)] + [XappSetup(SOCK)];
  }

  lemma CallState(s: Sys, n: nat, t: Sys)
    requires AfterCalls(s, n) && n < MAX_FORWARDED && Next(s, CALL) == Ok(t)
    ensures SOCK in t.xs && t.xs[SOCK].nextKey == n + 2 && t.xs[SOCK].nodes == {NODE} && t.agents == s.agents
  {
  }

  lemma CallAllowed(s: Sys, n: nat)
    requires AfterCalls(s, n) && n <= MAX_FORWARDED
    ensures Next(s, CALL).Ok? && !BadCall(s, CALL) && !Crowds(s, CALL)
  {
    assert NODE in s.agents.Keys && |s.agents| == |s.agents.Keys| == 1;
  }

  /** After draining, the call has returned and its request has its id. */
  lemma CallDrained(n: nat, s: Sys, t: Sys)
    requires Sound(t) && !CanDrain(t) && Follows(s, t) && NoneDoomed(s)
    requires Requested(s) == n + 1 <= MAX_FORWARDED
    requires SOCK in s.xs && s.xs[SOCK].nextKey == n + 2 && s.xs[SOCK].nodes == {NODE} && s.agents.Keys == {NODE}
    ensures AfterCalls(t, n + 1)
  {
    NotAtLast(t);
    DrainedStill(t);
    DrainedQuiet(t);
    SoundKeys(t);
    IdleHasDrawn(t);
    assert CallKept(s.xs[SOCK], t.xs[SOCK]);
    assert SOCK in t.xs.Keys;
  }

  lemma SoundKeys(s: Sys)
    requires Sound(s)
    ensures KeysOk(s.xs.Keys, s.x2i.Keys, s.i2x.Keys, s.agents.Keys, s.r2a.Keys, s.a2r.Keys)
  {
  }

  /** Any number of opening calls up to the bound can be made, one after the other. */
  lemma {:induction false} RestAfter(n: nat) returns (steps: seq<Step>, s: Sys)
    requires n <= MAX_FORWARDED
    ensures Decent(steps) && Roomy(steps) && Exec(steps) == Ok(s) && AfterCalls(s, n)
    ensures Openings(steps) == n && NodeSetups(steps) == 1
  {
    if n == 0 {
      steps, s := FirstSteps();
    } else {
      var before, r := RestAfter(n - 1);
      CallAllowed(r, n - 1);
      var t := Next(r, CALL).s;
      CallState(r, n - 1, t);
      OpenedSound(before, r, CALL, t);
      CallNoneDoomed(before, r, n - 1, t);
      var more: seq<Step>;
      more, s := DrainOut(before + [CALL], t);
      DrainingInternal(more);
      RunAfter(before, r, CALL, more);
      CallDrained(n - 1, t, s);
      steps := before + [CALL] + more;
    }
  }

  lemma CallNoneDoomed(steps: seq<Step>, s: Sys, n: nat, t: Sys)
    requires Decent(steps) && Roomy(steps) && Exec(steps) == Ok(s) && Openings(steps) == n < MAX_FORWARDED
    requires AfterCalls(s, n) && Next(s, CALL) == Ok(t)
    ensures NoneDoomed(t)
  {
    DecentFine(steps, s);
    CallAllowed(s, n);
    assert NODE in s.agents.Keys;
    OpenNoneDoomed(s, CALL, t);
  }

  /** The run that fails with its 64516th opening call. */
  lemma OneTooMany() returns (steps: seq<Step>)
    ensures Decent(steps) && Roomy(steps) && Exec(steps) == Abort
    ensures Openings(steps) == MAX_FORWARDED + 1 && NodeSetups(steps) == 1
  {
    var before, s := RestAfter(MAX_FORWARDED);
    CallAllowed(s, MAX_FORWARDED);
    var cont := BadFails(before, s, CALL);
    RunAfter(before, s, CALL, cont);
    steps := before + [CALL] + cont;
  }

  /** An xApp that arrives after 256 nodes fails the iApp. */
  lemma CrowdedSetupFails() returns (steps: seq<Step>)
    ensures Decent(steps) && Exec(steps) == Abort
    ensures Openings(steps) == 0 && NodeSetups(steps) == MAX_NODES + 1
  {
    var before, s := MoreNodes([], Init(), 1, MAX_NODES + 1);
    Extend(before, s, XappSetup(SOCK));
    steps := before + [XappSetup(SOCK)];
    assert steps[..|before|] == before;
  }

  /** So does a single report of an xApp that arrived before the 256th node. */
  lemma CrowdedReportFails() returns (steps: seq<Step>)
    ensures Decent(steps) && Exec(steps) == Abort
    ensures Openings(steps) == 1 && NodeSetups(steps) == MAX_NODES + 1
  {
    var first, s := FirstSteps();
    var before, t := MoreNodes(first, s, 2, MAX_NODES);
    var call := Report(SOCK, NODE, SM_SLICE, 9);
    assert |s.agents| == |s.agents.Keys| == 1;
    var cont := BadFails(before, t, call);
    RunAfter(before, t, call, cont);
    steps := before + [call] + cont;
  }

  /** Runs without a bad call, with at most n opening calls and m nodes do not fail,
      for exactly the n up to 64515 and the m up to 255, or for all n without nodes. */
  lemma SafeUpToIff(n: nat, m: nat)
    ensures (forall steps | Decent(steps) && Openings(steps) <= n && NodeSetups(steps) <= m :: Exec(steps) != Abort)
            <==> m <= 255 && (n <= 64515 || m == 0)
  {
    if m > MAX_NODES {
      var steps := CrowdedSetupFails();
      assert Decent(steps) && Openings(steps) <= n && NodeSetups(steps) <= m && Exec(steps) == Abort;
    } else if m > 0 && n > MAX_FORWARDED {
      var steps := OneTooMany();
      assert Decent(steps) && Openings(steps) <= n && NodeSetups(steps) <= m && Exec(steps) == Abort;
    } else {
      forall steps | Decent(steps) && Openings(steps) <= n && NodeSetups(steps) <= m ensures Exec(steps) != Abort {
        if m == 0 {
          NoNodesNeverAbort(steps);
        } else {
          FewNodesRoomy(steps);
          DecentNeverAborts(steps);
        }
      }
    }
  }

  /** A single report of the traffic control model and no other opening call. */
  lemma OneTcReportFails() returns (steps: seq<Step>)
    ensures Roomy(steps) && Openings(steps) == 1 && Exec(steps) == Abort
    ensures exists n, fd :: 0 <= n < |steps| && steps[n] == Report(SOCK, NODE, 146, fd)
  {
    var before, s := FirstSteps();
    var call := Report(SOCK, NODE, SM_TC, 9);
    var cont := BadFails(before, s, call);
    assert |s.agents| == |s.agents.Keys| == 1;
    RunAfter(before, s, call, cont);
    steps := before + [call] + cont;
    assert steps[|before|] == Report(SOCK, NODE, SM_TC, 9);
  }
}
