// What every reachable state of the protocol satisfies.
module Invariant {
  import opened E2ap
  import opened BiMap
  import opened RicTables
  import opened IdMap
  import opened XappTables
  import opened AgentTables
  import opened Protocol

  // ---------------------------------------------------------------- projections

  /** The id map, extended by the pair that the iApp thread is about to add. */
  ghost function Bound(s: Sys): Ids {
    match s.ipc
    case IPended(_, at, who) => Add(s.ids, at, who)
    case ISent(at, who) => Add(s.ids, at, who)
    case _ => s.ids
  }

  /** Requests for id `i` in a RIC -> node channel. */
  function Down(q: seq<E2Req>, i: int): seq<ReqKind> {
    if q == [] then []
    else (if q[0].ric.req == i then [q[0].kind] else []) + Down(q[1..], i)
  }

  /** Answers for id `i` in a node -> RIC channel. */
  function Up(q: seq<E2Ans>, i: int): seq<AnsKind> {
    if q == [] then []
    else (if q[0].ric.req == i then [q[0].kind] else []) + Up(q[1..], i)
  }

  /** Answers for the xApp id `ric` in an iApp -> xApp channel. */
  function Deliver(q: seq<E2Ans>, ric: RicGenId): seq<AnsKind> {
    if q == [] then []
    else (if q[0].ric == ric then [q[0].kind] else []) + Deliver(q[1..], ric)
  }

  datatype CallView = Elsewhere | Waits(kind: ReqKind) | Woken(kind: ReqKind)

  /** One request id as seen across the whole system. */
  datatype View = View(
    active: bool,               // its procedure is in the xApp's registry
    call: CallView,             // the xApp's blocking call, when it is about this id
    early: bool,                // a delete is between the xApp and the pending table
    down: seq<ReqKind>,         // past the pending table, not yet at the agent
    live: bool,                 // the agent has a timer for it
    pSub: bool, pDel: bool, pCtl: bool,   // pending entries at the RIC
    emitted: seq<AnsKind>,
    received: seq<AnsKind>,
    passed: seq<AnsKind>,       // in flight, timer already stopped
    queued: seq<AnsKind>)       // in flight, timer still running

  /** The E2 id that the RIC id `i` travels under. */
  ghost function E2Id(b: Ids, i: U16): RicGenId
    requires i in b.left
  {
    b.left[i].who.ric.(req := i)
  }

  /** The iApp holds a request of this xApp that has no pending entry yet. */
  ghost function Held(pc: IPc, xapp: U16): seq<E42Req> {
    match pc
    case IGot(req) => if req.xapp == xapp then [req] else []
    case ILocked(req) => if req.xapp == xapp then [req] else []
    case IFound(req, _) => if req.xapp == xapp then [req] else []
    case _ => []
  }

  ghost function Early(s: Sys, k: Sock): seq<E42Req>
    requires k in s.xs
  {
    Held(s.ipc, s.xs[k].id) + Get(s.x2i, k)
  }

  /** The request that is in the pending table but not yet sent. */
  ghost function Unsent(pc: IPc, i: int): seq<ReqKind> {
    match pc
    case IPended(kind, at, _) => if at.req == i then [kind] else []
    case IDelPended(ric, _) => if ric.req == i then [Delete] else []
    case _ => []
  }

  ghost function PassedAtRic(pc: RPc, i: int): seq<AnsKind> {
    match pc
    case RStopped(_, m) => if m.ric.req == i then [m.kind] else []
    case RLocked(_, m) => if m.ric.req == i then [m.kind] else []
    case RFound(_, m, _) => if m.ric.req == i then [m.kind] else []
    case _ => []
  }

  ghost function QueuedAtRic(pc: RPc, i: int): seq<AnsKind> {
    match pc
    case RGot(_, m) => if m.ric.req == i then [m.kind] else []
    case _ => []
  }

  ghost function CallOf(c: Call, ric: RicGenId): CallView {
    match c
    case NoCall => Elsewhere
    case Waiting(kind, r) => if r == ric then Waits(kind) else Elsewhere
    case Signalled(kind, r) => if r == ric then Woken(kind) else Elsewhere
  }

  ghost predicate Owned(s: Sys, i: U16) {
    && i in Bound(s).left
    && Bound(s).left[i].who.xapp in s.socks
    && s.socks[Bound(s).left[i].who.xapp] in s.xs
    && Bound(s).left[i].node in s.agents
  }

  ghost function ViewOf(s: Sys, i: U16): View
    requires Owned(s, i)
  {
    var b := Bound(s).left[i];
    var k := s.socks[b.who.xapp];
    var x := s.xs[k];
    var e := E2Id(Bound(s), i);
    View(b.who.ric.req in x.procs,
         CallOf(x.call, b.who.ric),
         CallOf(x.call, b.who.ric) == Waits(Delete) && Early(s, k) != [],
         Down(Get(s.r2a, b.node), i) + Unsent(s.ipc, i),
         e in s.agents[b.node].ind.right,
         PendEvent(Subscribe, e) in s.ric.pending.right,
         PendEvent(Delete, e) in s.ric.pending.right,
         PendEvent(Control, e) in s.ric.pending.right,
         Get(s.emitted, i),
         Get(s.received, b.who),
         Deliver(Get(s.i2x, k), b.who.ric) + PassedAtRic(s.rpc, i),
         QueuedAtRic(s.rpc, i) + Up(Get(s.a2r, b.node), i))
  }

  // ---------------------------------------------------------------- one request

  ghost predicate AllIndications(e: seq<AnsKind>) {
    forall j | 0 <= j < |e| :: e[j].Indication?
  }

  /** SubResponse, Indication* */
  ghost predicate Opened(e: seq<AnsKind>) {
    |e| > 0 && e[0] == SubResponse && AllIndications(e[1..])
  }

  /** SubResponse, Indication*, DelResponse */
  ghost predicate Closed(e: seq<AnsKind>) {
    |e| > 1 && e[|e| - 1] == DelResponse && Opened(e[..|e| - 1])
  }

  /** Nothing emitted is lost, duplicated, reordered or changed. */
  ghost predicate Conserved(v: View) {
    v.emitted == v.received + v.passed + v.queued
  }

  /** `pending` holds exactly what was sent and whose answer has not been seen. */
  ghost predicate PendingExact(v: View) {
    && (v.pSub <==> Subscribe in v.down || SubResponse in v.queued)
    && (v.pDel <==> Delete in v.down || DelResponse in v.queued)
    && (v.pCtl <==> Control in v.down || ControlAck in v.queued)
  }

  ghost predicate Subscribing(v: View) {
    && v.call == Waits(Subscribe) && v.active && !v.early
    && (|| (v.down == [Subscribe] && !v.live && v.emitted == [])
        || (v.down == [] && v.live && Opened(v.emitted) && v.received == []))
  }

  ghost predicate Established(v: View) {
    && v.active && v.live && Opened(v.emitted) && v.received != []
    && (|| ((v.call == Woken(Subscribe) || v.call == Elsewhere) && !v.early && v.down == [])
        || (v.call == Waits(Delete) && v.early && v.down == [])
        || (v.call == Waits(Delete) && !v.early && v.down == [Delete]))
  }

  ghost predicate Ending(v: View) {
    && !v.early && v.down == [] && !v.live && Closed(v.emitted) && v.received != []
    && (|| (v.call == Waits(Delete) && v.active && |v.received| < |v.emitted|)
        || (v.call == Woken(Delete) && v.active && v.received == v.emitted)
        || (v.call == Elsewhere && !v.active && v.received == v.emitted))
  }

  ghost predicate Controlling(v: View) {
    && !v.early && !v.live
    && (|| (v.call == Waits(Control) && v.active && v.down == [Control] && v.emitted == [])
        || (v.call == Waits(Control) && v.active && v.down == [] && v.emitted == [ControlAck] && v.received == [])
        || (v.call == Woken(Control) && v.active && v.down == [] && v.emitted == [ControlAck]
            && v.received == v.emitted)
        || (v.call == Elsewhere && !v.active && v.down == [] && v.emitted == [ControlAck] && v.received == v.emitted))
  }

  ghost predicate ViewOk(v: View) {
    && Conserved(v)
    && PendingExact(v)
    && (Subscribing(v) || Established(v) || Ending(v) || Controlling(v))
  }

  // ---------------------------------------------------------------- the system

  ghost predicate KeysOk(xs: set<Sock>, x2i: set<Sock>, i2x: set<Sock>,
                         nodes: set<NodeId>, r2a: set<NodeId>, a2r: set<NodeId>)
  {
    x2i == xs && i2x == xs && r2a == nodes && a2r == nodes
  }

  /** The id is among those given out before `nextXapp`, in order and truncated. */
  predicate Numbered(id: U16, nextXapp: int) {
    (id - FIRST_XAPP) % TWO_16 < nextXapp - FIRST_XAPP
  }

  ghost predicate SockOk(xs: map<Sock, XappState>, socks: map<U16, Sock>, id: U16)
    requires id in socks
  {
    socks[id] in xs && xs[socks[id]].id == id
  }

  ghost predicate SocksOk(xs: map<Sock, XappState>, socks: map<U16, Sock>, nextXapp: int) {
    && FIRST_XAPP <= nextXapp <= FIRST_XAPP + TWO_16
    && (forall k | k in xs :: xs[k].id in socks && socks[xs[k].id] == k)
    && (forall id | id in socks :: SockOk(xs, socks, id))
    && (forall id :: id in socks <==> Numbered(id, nextXapp))
  }

  ghost predicate LockOk(lock: Owner, ipc: IPc, rpc: RPc) {
    && (lock == ByIapp <==> ipc.ILocked? || ipc.IPended? || ipc.ISent? || ipc.IAdded?)
    && (lock == ByRic <==> rpc.RLocked?)
  }

  const MAX_FORWARDED := TWO_16 - FIRST_REQ_ID

  ghost predicate CounterOk(forwarded: nat, reqId: int) {
    forwarded <= MAX_FORWARDED && reqId == FIRST_REQ_ID + forwarded
  }

  /** The xApp and the node of a bound id are known. */
  ghost predicate HomeOk(b: Bind, socks: map<U16, Sock>, nodes: set<NodeId>) {
    b.who.xapp in socks && b.node in nodes
  }

  ghost predicate BoundOk(b: Ids, forwarded: nat, socks: map<U16, Sock>, nodes: set<NodeId>) {
    && Bijection(b.left, b.right)
    && (forall i | i in b.left :: FIRST_REQ_ID <= i < FIRST_REQ_ID + forwarded && HomeOk(b.left[i], socks, nodes))
  }

  /** The pair that the iApp thread is about to add is new on both sides. */
  ghost predicate AddOk(ids: Ids, ipc: IPc) {
    && (ipc.IPended? ==> ipc.kind != Delete && ipc.at.req !in ids.left && ipc.who !in ids.right)
    && (ipc.ISent? ==> ipc.at.req !in ids.left && ipc.who !in ids.right)
  }

  /** A message on the E2 side belongs to a bound id and to this node. */
  ghost predicate Fits(left: map<U16, Bind>, n: NodeId, ric: RicGenId) {
    && ric.req in left
    && left[ric.req].node == n
    && ric == left[ric.req].who.ric.(req := ric.req)
  }

  ghost predicate IpcOk(b: Ids, ipc: IPc, socks: map<U16, Sock>, nodes: set<NodeId>) {
    match ipc
    case IGot(req) => req.xapp in socks && (req.E42Delete? || req.node in nodes)
    case ILocked(req) => req.xapp in socks && (req.E42Delete? || req.node in nodes)
    case IFound(req, at) => req.xapp in socks && req.E42Delete? && req.Who() in b.right && b.right[req.Who()] == at
    case IDelPended(ric, node) => Fits(b.left, node, ric)
    case _ => true
  }

  ghost predicate RpcOk(left: map<U16, Bind>, rpc: RPc) {
    match rpc
    case RIdle => true
    case RFound(node, ans, who) => Fits(left, node, ans.ric) && who == left[ans.ric.req].who
    case _ => Fits(left, rpc.node, rpc.ans.ric)
  }

  ghost predicate PendingOk(left: map<U16, Bind>, p: Bi<Fd, PendEvent>, timers: set<Fd>) {
    && p.Inverse()
    && p.left.Keys == timers
    && (forall e | e in p.right :: e.ric.req in left && e.ric == left[e.ric.req].who.ric.(req := e.ric.req))
  }

  ghost predicate NodeOk(left: map<U16, Bind>, n: NodeId, a: AgentState, down: seq<E2Req>, up: seq<E2Ans>) {
    && a.ind.Inverse()
    && a.ind.left.Keys <= a.epoll
    && (forall ric | ric in a.ind.right :: Fits(left, n, ric))
    && (forall m | m in down :: Fits(left, n, m.ric))
    && (forall m | m in up :: Fits(left, n, m.ric))
  }

  ghost predicate HistoryOk(b: Ids, emitted: map<int, seq<AnsKind>>, received: map<XappRicId, seq<AnsKind>>,
                            stray: bool)
  {
    && (forall i | i in emitted :: i in b.left)
    && (forall x | x in received :: x in b.right)
    && !stray
  }

  /** The table of timers of an xApp is what its one call has armed. */
  ghost predicate TimerOk(x: XappState) {
    if x.call.Waiting? then |x.pending| == 1 && x.pending[0].1 == PendEvent(x.call.kind, x.call.ric)
    else x.pending == []
  }

  /** A call concerns a registered procedure under its generated id. */
  ghost predicate CallOk(x: XappState) {
    x.call != NoCall ==>
      && x.call.ric.req in x.procs
      && x.call.ric == RicOf(x.call.ric.req, x.procs[x.call.ric.req])
      && (x.procs[x.call.ric.req].kind == Control <==> x.call.kind == Control)
  }

  ghost predicate ProcOk(right: map<XappRicId, NodeReq>, x: XappState, r: U16)
    requires r in x.procs
  {
    var p := x.procs[r];
    var who := XappRicId(RicOf(r, p), x.id);
    && 1 <= r < x.nextKey
    && (p.kind == Control ==> x.call == Waiting(Control, RicOf(r, p)) || x.call == Signalled(Control, RicOf(r, p)))
    && p.kind != Delete
    && (who in right || x.call == Waiting(p.kind, RicOf(r, p)))
    && (who in right ==> right[who].node == p.node)
  }

  /** Ids bound for this xApp were generated by it, each number once. */
  ghost predicate GeneratedOk(x: XappState, q: XappRicId) {
    q.xapp == x.id ==>
      && 1 <= q.ric.req < x.nextKey
      && (q.ric.req in x.procs ==> q.ric == RicOf(q.ric.req, x.procs[q.ric.req]))
  }

  /** Where the request of the call is while it has no pending entry. */
  ghost predicate EarlyOk(right: map<XappRicId, NodeReq>, x: XappState, early: seq<E42Req>) {
    match x.call
    case Waiting(kind, ric) =>
      if kind == Delete then
        && XappRicId(ric, x.id) in right
        && (early == [] || early == [E42Delete(x.id, ric)])
      else if XappRicId(ric, x.id) in right then early == []
      else
        && ric.req in x.procs
        && early == [if kind == Subscribe then E42Subscribe(x.id, x.procs[ric.req].node, ric)
                     else E42Control(x.id, x.procs[ric.req].node, ric)]
    case Signalled(_, ric) => early == [] && XappRicId(ric, x.id) in right
    case NoCall => early == []
  }

  ghost predicate XappOk(right: map<XappRicId, NodeReq>, nodes: set<NodeId>, x: XappState,
                         early: seq<E42Req>, deliver: seq<E2Ans>)
  {
    && 1 <= x.nextKey <= TWO_16
    && {} < x.nodes <= nodes
    && TimerOk(x)
    && CallOk(x)
    && (forall r | r in x.procs :: ProcOk(right, x, r))
    && (forall q | q in right :: GeneratedOk(x, q))
    && EarlyOk(right, x, early)
    && (forall m | m in deliver :: XappRicId(m.ric, x.id) in right)
  }

  ghost predicate Wf(s: Sys) {
    && KeysOk(s.xs.Keys, s.x2i.Keys, s.i2x.Keys, s.agents.Keys, s.r2a.Keys, s.a2r.Keys)
    && SocksOk(s.xs, s.socks, s.nextXapp)
    && LockOk(s.lock, s.ipc, s.rpc)
    && CounterOk(s.forwarded, s.ric.reqId)
    && BoundOk(Bound(s), s.forwarded, s.socks, s.agents.Keys)
    && AddOk(s.ids, s.ipc)
    && IpcOk(Bound(s), s.ipc, s.socks, s.agents.Keys)
    && RpcOk(Bound(s).left, s.rpc)
    && PendingOk(Bound(s).left, s.ric.pending, s.ric.timers)
    && HistoryOk(Bound(s), s.emitted, s.received, s.stray)
  }

  ghost predicate NodesOk(s: Sys) {
    forall n | n in s.agents :: NodeOk(Bound(s).left, n, s.agents[n], Get(s.r2a, n), Get(s.a2r, n))
  }

  ghost predicate XappsOk(s: Sys) {
    forall k | k in s.xs :: XappOk(Bound(s).right, s.agents.Keys, s.xs[k], Early(s, k), Get(s.i2x, k))
  }

  ghost predicate RequestOk(s: Sys, i: U16) {
    Owned(s, i) && ViewOk(ViewOf(s, i))
  }

  ghost predicate ViewsOk(s: Sys) {
    forall i | i in Bound(s).left :: RequestOk(s, i)
  }

  ghost predicate Inv(s: Sys) {
    Wf(s) && NodesOk(s) && XappsOk(s) && ViewsOk(s)
  }

  lemma InitInv()
    ensures Inv(Init())
  {
  }
}
