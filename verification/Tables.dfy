// The tables of the four parties as values, with the functions that the
// handlers apply to them. The classes of the other modules hold these values
// in fields and are proved to apply exactly these functions.

/** near-RIC: the request counter and the unanswered requests. */
module RicTables {
  import opened E2ap
  import opened BiMap

  const FIRST_REQ_ID := 1021

  datatype RicState = RicState(reqId: int, pending: Bi<Fd, PendEvent>, timers: set<Fd>)

  /** `req_id++` on an atomic_int: 32-bit two's complement. */
  function Increment(reqId: int): int {
    if reqId == TWO_32 / 2 - 1 then -(TWO_32 / 2) else reqId + 1
  }

  /** A timer fd is created, registered with epoll and entered in `pending`. */
  function AddPending(r: RicState, fd: Fd, ev: PendEvent): RicState {
    r.(pending := r.pending.Insert(fd, ev), timers := r.timers + {fd})
  }

  /** stop_pending_event: the entry and its timer go together. */
  function StopPending(r: RicState, ev: PendEvent): RicState
    requires ev in r.pending.right
  {
    r.(pending := r.pending.ExtractRight(ev), timers := r.timers - {r.pending.right[ev]})
  }

  /** The entry that an answer closes is there; an indication closes none. */
  predicate Awaited(r: RicState, m: E2Ans) {
    Closes(m.kind).Some? ==> PendEvent(Closes(m.kind).value, m.ric) in r.pending.right
  }

  function Answered(r: RicState, m: E2Ans): RicState
    requires Awaited(r, m)
  {
    if Closes(m.kind).None? then r else StopPending(r, PendEvent(Closes(m.kind).value, m.ric))
  }
}

/** iApp: the map between xApp ids and RIC ids. */
module IdMap {
  import opened E2ap

  /** What a RIC id stands for. */
  datatype Bind = Bind(node: NodeId, who: XappRicId)

  /** e2_node_ric_req_t. */
  datatype NodeReq = NodeReq(node: NodeId, req: U16)

  /** Left side compared by the request id alone, right side by the whole xApp id. */
  datatype Ids = Ids(left: map<U16, Bind>, right: map<XappRicId, NodeReq>)

  function Add(m: Ids, n: NodeReq, x: XappRicId): Ids {
    Ids(m.left[n.req := Bind(n.node, x)], m.right[x := n])
  }

  /** The two sides are inverse to each other. */
  ghost predicate Bijection(left: map<U16, Bind>, right: map<XappRicId, NodeReq>) {
    && (forall i | i in left :: left[i].who in right && right[left[i].who] == NodeReq(left[i].node, i))
    && (forall x | x in right :: right[x].req in left && left[right[x].req] == Bind(right[x].node, x))
  }
}

/** xApp: active procedures, pending answers and the one blocking call. */
module XappTables {
  import opened E2ap

  datatype Proc = Proc(kind: ReqKind, func: U16, node: NodeId)

  datatype Call =
    | NoCall
    | Waiting(kind: ReqKind, ric: RicGenId)
    | Signalled(kind: ReqKind, ric: RicGenId)

  /** `nodes` is the registry of E2 nodes, filled once by the setup response;
      `pending` is the timer table in insertion order, whose index compares kinds only. */
  datatype XappState = XappState(
    id: U16,
    nodes: set<NodeId>,
    procs: map<U16, Proc>,
    nextKey: int,
    pending: seq<(Fd, PendEvent)>,
    call: Call)

  predicate ValidRanFunc(f: U16) {
    142 <= f <= 148
  }

  const SM_SLICE: U16 := 145
  const SM_TC: U16 := 146

  /** An indication of a type that the handlers of the near-RIC and the xApp refuse. */
  predicate Refused(m: E2Ans) {
    m.kind.Indication? && m.ric.func == SM_TC
  }

  /** The functions that control_sm_xapp_api admits. */
  predicate Controllable(f: U16) {
    f == SM_SLICE || f == SM_TC
  }

  /** The id that generate_ric_gen_id hands out and find_act_proc rebuilds. */
  function RicOf(key: U32, p: Proc): RicGenId {
    RicGenId(key, 0, p.func)
  }

  /** Position of the first entry of this kind, or the table's length. */
  function CoarseIndex(t: seq<(Fd, PendEvent)>, kind: ReqKind): (i: nat)
    ensures i <= |t|
    ensures i < |t| ==> t[i].1.kind == kind
    ensures forall j | 0 <= j < i :: t[j].1.kind != kind
  {
    if t == [] then 0
    else if t[0].1.kind == kind then 0
    else 1 + CoarseIndex(t[1..], kind)
  }

  function RemoveAt<T>(t: seq<T>, i: nat): seq<T>
    requires i < |t|
  {
    t[..i] + t[i + 1..]
  }
}

/** E2 agent: timers of the subscriptions, of the setup request, and epoll. */
module AgentTables {
  import opened E2ap
  import opened BiMap

  /** `pending` holds the timers of unanswered setup requests; all its entries
      have the same right key. */
  datatype AgentState = AgentState(
    net: Fd,
    ind: Bi<Fd, RicGenId>,
    pending: seq<Fd>,
    epoll: set<Fd>)

  function Connected(net: Fd): AgentState {
    AgentState(net, Bi(map[], map[]), [], {net})
  }

  function AddInd(a: AgentState, fd: Fd, ric: RicGenId): AgentState {
    a.(ind := a.ind.Insert(fd, ric), epoll := a.epoll + {fd})
  }

  function StopInd(a: AgentState, ric: RicGenId): AgentState
    requires ric in a.ind.right
  {
    a.(ind := a.ind.ExtractRight(ric), epoll := a.epoll - {a.ind.right[ric]})
  }

  /** The setup request is on its way; its timer is armed. */
  function AwaitSetup(a: AgentState, fd: Fd): AgentState {
    a.(pending := a.pending + [fd], epoll := a.epoll + {fd})
  }

  function StopSetup(a: AgentState): AgentState
    requires a.pending != []
  {
    a.(pending := a.pending[1..], epoll := a.epoll - {a.pending[0]})
  }
}
