// The four parties, their FIFO channels and the two threads of the RIC process
// as one transition system. The outcome Abort stands for a C assertion that fails,
// for a write past the end of an array, and for the insertion of a key that a
// bidirectional map already holds; Blocked for a step that is not enabled. New timers
// get descriptors that are not open.
module Protocol {
  import opened E2ap
  import opened BiMap
  import opened RicTables
  import opened IdMap
  import opened XappTables
  import opened AgentTables

  type Sock = int

  /** Where the iApp thread is inside the handler of one xApp request. */
  datatype IPc =
    | IIdle
    | IGot(req: E42Req)              // checked, id-map lock not taken yet
    | ILocked(req: E42Req)
    | IPended(kind: ReqKind, at: NodeReq, who: XappRicId)  // locked: id drawn, pending entry inserted
    | ISent(at: NodeReq, who: XappRicId)                   // locked: request on its way to the node
    | IAdded                         // locked: pair in the id map
    | IFound(req: E42Req, at: NodeReq)    // delete: pair looked up, lock released
    | IDelPended(ric: RicGenId, node: NodeId)

  /** Where the RIC thread is inside the handler of one answer. */
  datatype RPc =
    | RIdle
    | RGot(node: NodeId, ans: E2Ans)
    | RStopped(node: NodeId, ans: E2Ans)   // timer stopped, lock not taken yet
    | RLocked(node: NodeId, ans: E2Ans)
    | RFound(node: NodeId, ans: E2Ans, who: XappRicId)

  datatype Owner = Free | ByIapp | ByRic

  /** `emitted`, `received` and `stray` only record history. */
  datatype Sys = Sys(
    xs: map<Sock, XappState>,
    x2i: map<Sock, seq<E42Req>>,
    i2x: map<Sock, seq<E2Ans>>,
    nextXapp: int,
    socks: map<U16, Sock>,
    ids: Ids,
    lock: Owner,
    ipc: IPc,
    rpc: RPc,
    ric: RicState,
    r2a: map<NodeId, seq<E2Req>>,
    a2r: map<NodeId, seq<E2Ans>>,
    agents: map<NodeId, AgentState>,
    forwarded: nat,
    emitted: map<int, seq<AnsKind>>,
    received: map<XappRicId, seq<AnsKind>>,
    stray: bool)

  datatype Step =
    | XappSetup(sock: Sock)
    | NodeSetup(node: NodeId, net: Fd)
    | Report(sock: Sock, node: NodeId, func: U16, fd: Fd)
    | RmReport(sock: Sock, handle: U16, fd: Fd)
    | ControlCall(sock: Sock, node: NodeId, func: U16, ctrl: U16, fd: Fd)
    | XappRecv(sock: Sock)
    | XappReturn(sock: Sock)
    | IappRecv(sock: Sock)
    | IappLock
    | IappPend(fd: Fd)
    | IappSend
    | IappAdd
    | IappUnlock
    | IappFind
    | AgentRecv(node: NodeId, fd: Fd)
    | AgentTimer(node: NodeId, fd: Fd, payload: int)
    | RicRecv(node: NodeId)
    | RicStop
    | RicLock
    | RicFind
    | RicSend

  datatype Outcome = Blocked | Abort | Ok(s: Sys)

  const FIRST_XAPP := 7

  function Init(): Sys {
    Sys(map[], map[], map[], FIRST_XAPP, map[], Ids(map[], map[]), Free, IIdle, RIdle,
        RicState(FIRST_REQ_ID, Bi(map[], map[]), {}), map[], map[], map[], 0, map[], map[], false)
  }

  function Get<K, V>(m: map<K, seq<V>>, k: K): seq<V> {
    if k in m then m[k] else []
  }

  // ---------------------------------------------------------------- xApp

  /** The response to an xApp's setup can list the connected nodes: their array
      holds all of them, and its encoding asks for one at least. */
  predicate Listed(s: Sys) {
    0 < |s.agents| <= MAX_NODES
  }

  /** E42 setup: the iApp numbers the xApp, registers its socket and tells it the nodes. */
  function DoXappSetup(s: Sys, k: Sock): Outcome {
    if k in s.xs then Blocked else
    var id := Trunc16(s.nextXapp);
    if id in s.socks || !Listed(s) then Abort else
    Ok(s.(xs := s.xs[k := XappState(id, s.agents.Keys, map[], 1, [], NoCall)],
          x2i := s.x2i[k := []], i2x := s.i2x[k := []],
          nextXapp := s.nextXapp + 1, socks := s.socks[id := k]))
  }

  /** A blocking call that opens a procedure: register, send, arm the timer, wait.
      A report is for a node that the xApp was told of. */
  function DoOpen(s: Sys, k: Sock, kind: ReqKind, node: NodeId, func: U16, fd: Fd): Outcome
    requires kind != Delete
  {
    if k !in s.xs || s.xs[k].call != NoCall || k !in s.x2i then Blocked else
    var x := s.xs[k];
    if kind == Subscribe && node !in x.nodes then Abort else
    if !ValidRanFunc(func) || x.nextKey >= TWO_16 || x.nextKey < 0 then Abort else
    var p := Proc(kind, func, node);
    var ric := RicOf(x.nextKey, p);
    var req := if kind == Subscribe then E42Subscribe(x.id, node, ric) else E42Control(x.id, node, ric);
    Ok(s.(xs := s.xs[k := x.(procs := x.procs[x.nextKey := p], nextKey := x.nextKey + 1,
                             pending := x.pending + [(fd, PendEvent(kind, ric))],
                             call := Waiting(kind, ric))],
          x2i := s.x2i[k := s.x2i[k] + [req]]))
  }

  /** The service model of `func` makes the request out of a control message of
      the model `ctrl`. */
  function DoControl(s: Sys, k: Sock, node: NodeId, func: U16, ctrl: U16, fd: Fd): Outcome {
    if DoOpen(s, k, Control, node, func, fd).Ok? && (ctrl != func || !Controllable(func)) then Abort
    else DoOpen(s, k, Control, node, func, fd)
  }

  function DoRmReport(s: Sys, k: Sock, handle: U16, fd: Fd): Outcome {
    if k !in s.xs || s.xs[k].call != NoCall || k !in s.x2i then Blocked else
    var x := s.xs[k];
    if handle !in x.procs then Abort else
    var ric := RicOf(handle, x.procs[handle]);
    Ok(s.(xs := s.xs[k := x.(pending := x.pending + [(fd, PendEvent(Delete, ric))],
                             call := Waiting(Delete, ric))],
          x2i := s.x2i[k := s.x2i[k] + [E42Delete(x.id, ric)]]))
  }

  /** signal_sync_ui wakes the caller whatever it waits for. */
  function Wake(c: Call): Call {
    if c.Waiting? then Signalled(c.kind, c.ric) else c
  }

  function DoXappRecv(s: Sys, k: Sock): Outcome {
    if k !in s.xs || Get(s.i2x, k) == [] then Blocked else
    var x := s.xs[k];
    var m := s.i2x[k][0];
    var key := Trunc16(m.ric.req);
    var who := XappRicId(m.ric, x.id);
    var s1 := s.(i2x := s.i2x[k := s.i2x[k][1..]],
                 received := s.received[who := Get(s.received, who) + [m.kind]]);
    match Closes(m.kind)
    case None =>
      if Refused(m) then Abort else Ok(s1.(stray := s.stray || key !in x.procs))
    case Some(kind) =>
      var at := CoarseIndex(x.pending, kind);
      if key !in x.procs || at == |x.pending| then Abort else
      Ok(s1.(xs := s.xs[k := x.(pending := RemoveAt(x.pending, at), call := Wake(x.call))]))
  }

  /** The caller wakes up; a delete or a control call ends its procedure. */
  function DoXappReturn(s: Sys, k: Sock): Outcome {
    if k !in s.xs || !s.xs[k].call.Signalled? then Blocked else
    var x := s.xs[k];
    if x.call.kind == Subscribe then Ok(s.(xs := s.xs[k := x.(call := NoCall)])) else
    var key := Trunc16(x.call.ric.req);
    if key !in x.procs then Abort else
    Ok(s.(xs := s.xs[k := x.(call := NoCall, procs := x.procs - {key})]))
  }

  // ---------------------------------------------------------------- iApp thread

  /** valid_global_e2_node, which takes an array of all connected nodes. */
  predicate Admitted(s: Sys, node: NodeId) {
    |s.agents| <= MAX_NODES && node in s.agents
  }

  function DoIappRecv(s: Sys, k: Sock): Outcome {
    if s.ipc != IIdle || Get(s.x2i, k) == [] then Blocked else
    var req := s.x2i[k][0];
    if !req.E42Delete? && (req.xapp > s.nextXapp || !Admitted(s, req.node)) then Abort else
    Ok(s.(x2i := s.x2i[k := s.x2i[k][1..]], ipc := IGot(req)))
  }

  function DoIappLock(s: Sys): Outcome {
    if !s.ipc.IGot? || s.lock != Free then Blocked else
    Ok(s.(lock := ByIapp, ipc := ILocked(s.ipc.req)))
  }

  /** Draw the RIC id (not for a delete), create the timer, insert the pending entry. */
  function DoIappPend(s: Sys, fd: Fd): Outcome {
    if fd <= 0 || fd in s.ric.timers then Blocked else
    match s.ipc
    case ILocked(req) =>
      if req.E42Delete? then Blocked else
      var id := Trunc16(s.ric.reqId);
      var ev := PendEvent(req.Kind(), req.ric.(req := id));
      if !s.ric.pending.Fresh(fd, ev) then Abort else
      Ok(s.(ric := AddPending(s.ric.(reqId := Increment(s.ric.reqId)), fd, ev),
            forwarded := s.forwarded + 1,
            ipc := IPended(req.Kind(), NodeReq(req.node, id), req.Who())))
    case IFound(req, at) =>
      var ric := req.ric.(req := at.req);
      var ev := PendEvent(Delete, ric);
      if !s.ric.pending.Fresh(fd, ev) then Abort else
      Ok(s.(ric := AddPending(s.ric, fd, ev), ipc := IDelPended(ric, at.node)))
    case _ => Blocked
  }

  function DoIappSend(s: Sys): Outcome {
    match s.ipc
    case IPended(kind, at, who) =>
      if at.node !in s.r2a then Abort else
      Ok(s.(r2a := s.r2a[at.node := s.r2a[at.node] + [E2Req(kind, who.ric.(req := at.req))]],
            ipc := ISent(at, who)))
    case IDelPended(ric, node) =>
      if node !in s.r2a then Abort else
      Ok(s.(r2a := s.r2a[node := s.r2a[node] + [E2Req(Delete, ric)]], ipc := IIdle))
    case _ => Blocked
  }

  function DoIappAdd(s: Sys): Outcome {
    match s.ipc
    case ISent(at, who) =>
      if at.req in s.ids.left || who in s.ids.right then Abort else
      Ok(s.(ids := Add(s.ids, at, who), ipc := IAdded))
    case _ => Blocked
  }

  function DoIappUnlock(s: Sys): Outcome {
    if s.ipc != IAdded then Blocked else Ok(s.(lock := Free, ipc := IIdle))
  }

  function DoIappFind(s: Sys): Outcome {
    match s.ipc
    case ILocked(req) =>
      if !req.E42Delete? then Blocked else
      if req.Who() !in s.ids.right then Abort else
      Ok(s.(lock := Free, ipc := IFound(req, s.ids.right[req.Who()])))
    case _ => Blocked
  }

  // ---------------------------------------------------------------- agent

  function DoNodeSetup(s: Sys, n: NodeId, net: Fd): Outcome {
    if n in s.agents || net <= 0 then Blocked else
    Ok(s.(agents := s.agents[n := Connected(net)], r2a := s.r2a[n := []], a2r := s.a2r[n := []]))
  }

  /** The agent sends an answer; `emitted` remembers it under its RIC id. */
  function Emit(s: Sys, n: NodeId, m: E2Ans): Sys {
    s.(a2r := s.a2r[n := Get(s.a2r, n) + [m]],
       emitted := s.emitted[m.ric.req := Get(s.emitted, m.ric.req) + [m.kind]])
  }

  function DoAgentRecv(s: Sys, n: NodeId, fd: Fd): Outcome {
    if n !in s.agents || Get(s.r2a, n) == [] then Blocked else
    var a := s.agents[n];
    var m := s.r2a[n][0];
    var s1 := s.(r2a := s.r2a[n := s.r2a[n][1..]]);
    match m.kind
    case Subscribe =>
      if fd <= 0 || fd in a.epoll then Blocked else
      if !a.ind.Fresh(fd, m.ric) then Abort else
      Ok(Emit(s1.(agents := s.agents[n := AddInd(a, fd, m.ric)]), n, E2Ans(SubResponse, m.ric)))
    case Delete =>
      if m.ric !in a.ind.right then Abort else
      Ok(Emit(s1.(agents := s.agents[n := StopInd(a, m.ric)]), n, E2Ans(DelResponse, m.ric)))
    case Control =>
      Ok(Emit(s1, n, E2Ans(ControlAck, m.ric)))
  }

  function DoAgentTimer(s: Sys, n: NodeId, fd: Fd, payload: int): Outcome {
    if n !in s.agents || fd !in s.agents[n].ind.left then Blocked else
    Ok(Emit(s, n, E2Ans(Indication(payload), s.agents[n].ind.left[fd])))
  }

  // ---------------------------------------------------------------- RIC thread

  function DoRicRecv(s: Sys, n: NodeId): Outcome {
    if s.rpc != RIdle || Get(s.a2r, n) == [] then Blocked else
    Ok(s.(a2r := s.a2r[n := s.a2r[n][1..]], rpc := RGot(n, s.a2r[n][0])))
  }

  function DoRicStop(s: Sys): Outcome {
    match s.rpc
    case RGot(n, m) =>
      if Refused(m) || !Awaited(s.ric, m) then Abort else
      Ok(s.(ric := Answered(s.ric, m), rpc := RStopped(n, m)))
    case _ => Blocked
  }

  function DoRicLock(s: Sys): Outcome {
    if !s.rpc.RStopped? || s.lock != Free then Blocked else
    Ok(s.(lock := ByRic, rpc := RLocked(s.rpc.node, s.rpc.ans)))
  }

  function DoRicFind(s: Sys): Outcome {
    match s.rpc
    case RLocked(n, m) =>
      var id := Trunc16(m.ric.req);
      if id == 0 || id !in s.ids.left then Abort else
      var who := s.ids.left[id].who;
      if who.ric.func != m.ric.func || who.ric.inst != m.ric.inst then Abort else
      Ok(s.(lock := Free, rpc := RFound(n, m, who)))
    case _ => Blocked
  }

  /** The answer as the xApp sees it: a response and an indication keep the
      agent's id but for the request number, the other two take the stored id. */
  function Translate(m: E2Ans, who: XappRicId): E2Ans {
    match m.kind
    case SubResponse => E2Ans(m.kind, m.ric.(req := who.ric.req))
    case Indication(_) => E2Ans(m.kind, m.ric.(req := who.ric.req))
    case _ => E2Ans(m.kind, who.ric)
  }

  function DoRicSend(s: Sys): Outcome {
    match s.rpc
    case RFound(n, m, who) =>
      if who.xapp !in s.socks || s.socks[who.xapp] !in s.i2x then Abort else
      var k := s.socks[who.xapp];
      Ok(s.(i2x := s.i2x[k := s.i2x[k] + [Translate(m, who)]], rpc := RIdle))
    case _ => Blocked
  }

  function Next(s: Sys, st: Step): Outcome {
    match st
    case XappSetup(k) => DoXappSetup(s, k)
    case NodeSetup(n, net) => DoNodeSetup(s, n, net)
    case Report(k, n, f, fd) => DoOpen(s, k, Subscribe, n, f, fd)
    case RmReport(k, h, fd) => DoRmReport(s, k, h, fd)
    case ControlCall(k, n, f, c, fd) => DoControl(s, k, n, f, c, fd)
    case XappRecv(k) => DoXappRecv(s, k)
    case XappReturn(k) => DoXappReturn(s, k)
    case IappRecv(k) => DoIappRecv(s, k)
    case IappLock => DoIappLock(s)
    case IappPend(fd) => DoIappPend(s, fd)
    case IappSend => DoIappSend(s)
    case IappAdd => DoIappAdd(s)
    case IappUnlock => DoIappUnlock(s)
    case IappFind => DoIappFind(s)
    case AgentRecv(n, fd) => DoAgentRecv(s, n, fd)
    case AgentTimer(n, fd, p) => DoAgentTimer(s, n, fd, p)
    case RicRecv(n) => DoRicRecv(s, n)
    case RicStop => DoRicStop(s)
    case RicLock => DoRicLock(s)
    case RicFind => DoRicFind(s)
    case RicSend => DoRicSend(s)
  }
}
